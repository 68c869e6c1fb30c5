/** Values that travel through the grid: optional values, decoded JSON and event payloads. */
module Values {

  datatype Option<+T> = None | Some(value: T)

  /** A decoded JSON value. Only integers are needed among the numbers. */
  datatype Json =
    | Null
    | Bool(b: bool)
    | Num(n: int)
    | Str(s: string)
    | Arr(items: seq<Json>)
    | Obj(fields: map<string, Json>)

  /** What decoding the bytes and parsing them as JSON gives. */
  datatype Parsed = Undecodable | Value(json: Json)

  /** The two views the applications take of one byte string: its text, with undecodable
      bytes dropped, and its JSON value. */
  datatype Payload = Payload(text: string, parsed: Parsed)

  /** `word in text`, as Python decides it. */
  predicate Contains(text: string, word: string) {
    exists i :: 0 <= i <= |text| - |word| && text[i..][..|word|] == word
  }

  /** A text contains a word exactly if the word stands somewhere in it. */
  lemma ContainsExact(text: string, word: string)
    ensures Contains(text, word) <==> exists a, b :: text == a + word + b
  {
    if Contains(text, word) {
      var i :| 0 <= i <= |text| - |word| && text[i..][..|word|] == word;
      assert text == text[..i] + word + text[i..][|word|..];
    }
    if a, b :| text == a + word + b {
      assert text[|a|..][..|word|] == word;
    }
  }

  lemma ContainsNeedsFirstChar(text: string, word: string)
    requires word != [] && Contains(text, word)
    ensures word[0] in text
  {
    var i :| 0 <= i <= |text| - |word| && text[i..][..|word|] == word;
    assert text[i..][..|word|][0] == text[i];
  }

  function Min(a: nat, b: nat): nat {
    if a < b then a else b
  }

  /** The first `n` elements, or all of them when there are fewer. */
  function Take<T>(s: seq<T>, n: nat): seq<T> {
    s[..Min(n, |s|)]
  }
}
