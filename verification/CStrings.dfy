/** Character buffers read as C strings. */
module CStrings {
  /** A C string: characters without a NUL. */
  type Text = s: string | '\0' !in s

  /** What a buffer holds as a C string: everything before the first NUL. */
  function CString(b: seq<char>): string {
    if b == [] || b[0] == '\0' then [] else [b[0]] + CString(b[1..])
  }

  lemma {:induction false} CStringOf(text: string, rest: seq<char>)
    requires '\0' !in text
    ensures CString(text + ['\0'] + rest) == text
  {
    var b := text + ['\0'] + rest;
    if text != [] {
      assert b[0] == text[0] && b[1..] == text[1..] + ['\0'] + rest;
      CStringOf(text[1..], rest);
    }
  }

  /** Nothing after the first NUL of a text that is followed by one matters. */
  lemma {:induction false} CStringCut(text: string, rest: seq<char>)
    ensures CString(text + ['\0'] + rest) == CString(text)
  {
    var b := text + ['\0'] + rest;
    if text != [] {
      assert b[0] == text[0] && b[1..] == text[1..] + ['\0'] + rest;
      CStringCut(text[1..], rest);
    }
  }

  /** A C string is what stands before the first NUL, or everything if there is none. */
  lemma {:induction false} CStringMeaning(b: seq<char>)
    ensures CString(b) <= b && '\0' !in CString(b)
    ensures |CString(b)| < |b| ==> b[|CString(b)|] == '\0'
  {
    if b != [] && b[0] != '\0' {
      CStringMeaning(b[1..]);
      assert b == [b[0]] + b[1..];
    }
  }
}
