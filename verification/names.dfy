/** Small text utilities of the chat handler (src/message.rs): byte-bounded truncation of
    UTF-8 text, nick names that do not trigger highlights, and the unsafe-character test. */
module Names {
  import opened Text

  /* ---------- utf8_truncate ---------- */

  /** The number of bytes UTF-8 uses for `c` (`char::len_utf8`). */
  function Utf8Len(c: char): (k: nat)
    ensures 1 <= k <= 4
  {
    if c as int < 0x80 then 1
    else if c as int < 0x800 then 2
    else if c as int < 0x10000 then 3
    else 4
  }

  /** The UTF-8 length of a string in bytes. */
  function ByteLen(s: string): nat
  {
    if |s| == 0 then 0 else ByteLen(s[..|s| - 1]) + Utf8Len(s[|s| - 1])
  }

  /** A longer prefix never has fewer bytes. */
  lemma {:induction false} ByteLenMonotone(s: string, i: nat, j: nat)
    requires i <= j <= |s|
    ensures ByteLen(s[..i]) <= ByteLen(s[..j])
    decreases j - i
  {
    if i < j {
      ByteLenMonotone(s, i, j - 1);
      assert s[..j][..j - 1] == s[..j - 1];
    }
  }

  /** `utf8_truncate`: the characters of `s`, walked with their byte offsets, are kept while
      each one still ends within `n` bytes.  The result is the longest prefix of `s` that
      fits in `n` bytes; no character is ever cut. */
  method Utf8Truncate(s: string, n: nat) returns (r: string)
    ensures |r| <= |s| && r == s[..|r|]
    ensures ByteLen(r) <= n
    ensures forall k :: |r| < k <= |s| ==> ByteLen(s[..k]) > n
  {
    var i := 0;
    var offset := 0;
    while i < |s| && offset + Utf8Len(s[i]) <= n
      invariant i <= |s|
      invariant offset == ByteLen(s[..i]) <= n
    {
      assert s[..i + 1][..i] == s[..i];
      offset := offset + Utf8Len(s[i]);
      i := i + 1;
    }
    r := s[..i];
    if i < |s| {
      assert s[..i + 1][..i] == s[..i];
      forall k | i < k <= |s| ensures ByteLen(s[..k]) > n {
        ByteLenMonotone(s, i + 1, k);
      }
    }
  }

  lemma {:induction false} ByteLenAscii(s: string)
    requires forall i :: 0 <= i < |s| ==> s[i] as int < 0x80
    ensures ByteLen(s) == |s|
  {
    if |s| > 0 {
      ByteLenAscii(s[..|s| - 1]);
    }
  }

  /** The cases of `test_utf8_truncate`. */
  method Utf8TruncateExamples()
  {
    var a := Utf8Truncate("", 10);
    assert a == "";
    var b := Utf8Truncate("  ", 1);
    assert ByteLen("  "[..1]) == 1 && ByteLen("  "[..2]) == 2;
    assert b == " ";
    var c := Utf8Truncate("♥", 3);
    assert ByteLen("♥"[..1]) == 3;
    assert c == "♥";
    var d := Utf8Truncate("♥", 2);
    assert d == "";
    var e := Utf8Truncate("̆̆", 2);
    assert ByteLen("̆̆"[..1]) == 2;
    assert "̆̆"[..2] == "̆̆";
    assert e == "̆";
    var text := "hello \U{1F603} world!";
    var f := Utf8Truncate(text, 9);
    ByteLenAscii(text[..6]);
    assert text[..7][..6] == text[..6];
    assert ByteLen(text[..7]) == 10;
    if |f| > 6 {
      ByteLenMonotone(text, 7, |f|);
    }
    assert f == text[..6] == "hello ";
  }

  /* ---------- create_non_highlighting_name ---------- */

  /** The zero-width non-joiner, U+200C. */
  const ZWNJ: char := '‌'

  function Concat(parts: seq<string>): string
  {
    if |parts| == 0 then "" else parts[0] + Concat(parts[1..])
  }

  /** `graphemes` splits `name` into extended grapheme clusters (as the segmentation
      library does; the segmentation itself is an input here). */
  predicate IsSegmentation(graphemes: seq<string>, name: string)
  {
    Concat(graphemes) == name && forall i :: 0 <= i < |graphemes| ==> |graphemes[i]| > 0
  }

  /** `create_non_highlighting_name`: the first grapheme, a zero-width non-joiner, then the
      rest of the name.  Removing that one character gives the name back, and for a
      non-empty name it is never first, so the shown name differs from the nick. */
  function CreateNonHighlightingName(name: string, graphemes: seq<string>): (r: string)
    requires IsSegmentation(graphemes, name)
    ensures |r| == |name| + 1
    ensures var k := if |graphemes| == 0 then 0 else |graphemes[0]|;
      k <= |name| && r[k] == ZWNJ && r[..k] + r[k + 1..] == name && r[..k] == name[..k]
    ensures |name| > 0 ==> |graphemes| > 0 && r[0] == name[0]
    ensures |name| == 0 ==> r == [ZWNJ]
  {
    if |graphemes| == 0 then [ZWNJ]
    else graphemes[0] + [ZWNJ] + Concat(graphemes[1..])
  }

  /** The cases of `test_create_non_highlighting_name`, segmented one character at a time. */
  lemma NonHighlightingExamples()
    ensures CreateNonHighlightingName("", []) == "‌"
    ensures CreateNonHighlightingName("foo", ["f", "o", "o"]) == "f‌oo"
    ensures CreateNonHighlightingName("bar", ["b", "a", "r"]) == "b‌ar"
  {
    assert Concat(["f", "o", "o"]) == "foo" by { assert ["f", "o", "o"][1..] == ["o", "o"]; }
    assert Concat(["b", "a", "r"]) == "bar" by { assert ["b", "a", "r"][1..] == ["a", "r"]; }
  }

  /* ---------- contains_unsafe_chars ---------- */

  /** The characters `{ } | \ ^ ~ [ ] `` that section 2.2 of RFC 1738 lists as unsafe in
      URLs because gateways may change them. */
  predicate IsUnsafe(c: char)
  {
    c in {'{', '}', '|', '\\', '^', '~', '[', ']', '`'}
  }

  /** `contains_unsafe_chars`: some character of `token` is unsafe. */
  function ContainsUnsafeChars(token: string): (r: bool)
    ensures r <==> exists i :: 0 <= i < |token| && IsUnsafe(token[i])
  {
    if |token| == 0 then false
    else if IsUnsafe(token[0]) then true
    else
      var rest := ContainsUnsafeChars(token[1..]);
      assert rest <==> exists i :: 1 <= i < |token| && IsUnsafe(token[i]) by {
        forall i | 1 <= i < |token| ensures token[i] == token[1..][i - 1] { }
      }
      rest
  }

  /** The cases of `test_contains_unsafe_chars`. */
  lemma UnsafeExamples(c: char)
    ensures ContainsUnsafeChars("http://z/" + [c]) <==> IsUnsafe(c)
    ensures !ContainsUnsafeChars("http://z.zzz/")
  {
    var t := "http://z/" + [c];
    assert t[9] == c;
    assert forall i :: 0 <= i < 9 ==> t[i] in "http://z/";
    assert forall i :: 0 <= i < |"http://z.zzz/"| ==> "http://z.zzz/"[i] in "http:/z.";
  }
}
