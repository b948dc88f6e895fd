// Rust's `str::trim`, which src/main.rs applies to each line read from
// standard input: it drops leading and trailing characters for which
// `char::is_whitespace` holds and keeps everything in between.

module Text {

  /** `char::is_whitespace`: the characters with the Unicode White_Space
      property. */
  predicate IsWhitespace(c: char) {
    var u := c as int;
    (0x09 <= u <= 0x0D) || u == 0x20 || u == 0x85 || u == 0xA0 || u == 0x1680 ||
    (0x2000 <= u <= 0x200A) || u == 0x2028 || u == 0x2029 || u == 0x202F ||
    u == 0x205F || u == 0x3000
  }

  /** Neither the first nor the last character is whitespace. */
  predicate HasNoOuterWhitespace(s: string) {
    s == [] || (!IsWhitespace(s[0]) && !IsWhitespace(s[|s| - 1]))
  }

  /** `r` is `s` with a run of whitespace removed from each end. */
  ghost predicate IsTrimmedSlice(s: string, r: string) {
    exists i, j :: 0 <= i <= j <= |s| && r == s[i..j] &&
      (forall k :: 0 <= k < i ==> IsWhitespace(s[k])) &&
      (forall k :: j <= k < |s| ==> IsWhitespace(s[k]))
  }

  /** `str::trim_start`: the longest suffix that does not start with
      whitespace; everything before it is whitespace. */
  function TrimStart(s: string): (r: string)
    ensures |r| <= |s| && r == s[|s| - |r|..]
    ensures forall k :: 0 <= k < |s| - |r| ==> IsWhitespace(s[k])
    ensures r != [] ==> !IsWhitespace(r[0])
  {
    if |s| > 0 && IsWhitespace(s[0]) then TrimStart(s[1..]) else s
  }

  /** `str::trim_end`: the longest prefix that does not end with
      whitespace; everything after it is whitespace. */
  function TrimEnd(s: string): (r: string)
    ensures |r| <= |s| && r == s[..|r|]
    ensures forall k :: |r| <= k < |s| ==> IsWhitespace(s[k])
    ensures r != [] ==> !IsWhitespace(r[|r| - 1])
  {
    if |s| > 0 && IsWhitespace(s[|s| - 1]) then TrimEnd(s[..|s| - 1]) else s
  }

  /** `str::trim`. */
  function Trim(s: string): (r: string)
    ensures HasNoOuterWhitespace(r)
    ensures IsTrimmedSlice(s, r)
  {
    var t := TrimStart(s);
    var r := TrimEnd(t);
    var i := |s| - |t|;
    assert r == s[i..i + |r|];
    r
  }

  /** A string with no whitespace at either end is left as it is. */
  lemma TrimLeavesTrimmedText(s: string)
    requires HasNoOuterWhitespace(s)
    ensures Trim(s) == s
  {
  }

  /** Trimming twice is trimming once. */
  lemma TrimIdempotent(s: string)
    ensures Trim(Trim(s)) == Trim(s)
  {
    TrimLeavesTrimmedText(Trim(s));
  }

  /** A line as `read_line` returns it, newline included, loses exactly
      the newline when the text before it has no whitespace at its ends. */
  lemma TrimDropsLineEnd(s: string)
    requires s != [] && HasNoOuterWhitespace(s)
    ensures Trim(s + "\n") == s
  {
    var line := s + "\n";
    assert TrimStart(line) == line;
    assert line[..|line| - 1] == s;
    assert TrimEnd(line) == TrimEnd(s);
  }

  /** Blanks on both sides go, a carriage return too; inner blanks stay. */
  lemma TrimPaddedExample()
    ensures Trim(" a b\r\n") == "a b"
  {
    assert IsWhitespace(' ') && IsWhitespace('\r') && IsWhitespace('\n');
    assert !IsWhitespace('a') && !IsWhitespace('b');
    assert " a b\r\n"[1..] == "a b\r\n";
    assert TrimStart(" a b\r\n") == "a b\r\n";
    assert "a b\r\n"[..4] == "a b\r";
    assert "a b\r"[..3] == "a b";
    assert TrimEnd("a b\r\n") == "a b";
  }
}
