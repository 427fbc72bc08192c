/** The string operations the item mapping applies: Python's `s.split(sep)`
    and `s.split("/")[-1]`, `str.capitalize()` over ASCII letters, and the
    head slice `s[0:n]`. */
module Text {

  /** The pieces of `s` between the occurrences of `sep`, as `s.split(sep)`
      returns them: there is always at least one piece, empty pieces are
      kept, and no piece holds `sep`. */
  function Split(s: string, sep: char): (parts: seq<string>)
    ensures |parts| >= 1
    ensures forall k :: 0 <= k < |parts| ==> sep !in parts[k]
    decreases |s|
  {
    if s == [] then [[]]
    else
      var init := Split(s[..|s| - 1], sep);
      var c := s[|s| - 1];
      if c == sep then init + [[]]
      else
        var piece := init[|init| - 1] + [c];
        assert sep !in piece;
        init[..|init| - 1] + [piece]
  }

  /** The pieces glued back together with `sep` between them, as
      `sep.join(parts)` does. */
  function Join(parts: seq<string>, sep: char): string
    decreases |parts|
  {
    if parts == [] then []
    else if |parts| == 1 then parts[0]
    else Join(parts[..|parts| - 1], sep) + [sep] + parts[|parts| - 1]
  }

  /** Joining after appending a piece puts `sep` before it. */
  lemma JoinSnoc(parts: seq<string>, piece: string, sep: char)
    requires |parts| >= 1
    ensures Join(parts + [piece], sep) == Join(parts, sep) + [sep] + piece
  {
    assert (parts + [piece])[..|parts|] == parts;
  }

  /** Joining after extending the last piece extends the joined string. */
  lemma JoinExtendLast(parts: seq<string>, c: char, sep: char)
    requires |parts| >= 1
    ensures Join(parts[..|parts| - 1] + [parts[|parts| - 1] + [c]], sep) == Join(parts, sep) + [c]
  {
    var front := parts[..|parts| - 1];
    if |parts| > 1 {
      JoinSnoc(front, parts[|parts| - 1] + [c], sep);
      assert parts == front + [parts[|parts| - 1]];
      JoinSnoc(front, parts[|parts| - 1], sep);
    }
  }

  /** Splitting loses nothing: joining the pieces gives the string back. */
  lemma {:induction false} JoinSplit(s: string, sep: char)
    ensures Join(Split(s, sep), sep) == s
    decreases |s|
  {
    if s != [] {
      var init := Split(s[..|s| - 1], sep);
      var c := s[|s| - 1];
      JoinSplit(s[..|s| - 1], sep);
      assert s == s[..|s| - 1] + [c];
      if c == sep {
        JoinSnoc(init, [], sep);
      } else {
        JoinExtendLast(init, c, sep);
      }
    }
  }

  /** `s.split("/")[-1]`: the characters of `s` after its last `/`, or all
      of `s` when it has none. */
  function LastSegment(s: string): string
    decreases |s|
  {
    if s == [] || s[|s| - 1] == '/' then []
    else LastSegment(s[..|s| - 1]) + [s[|s| - 1]]
  }

  /** The final segment holds no `/`, it ends `s`, and it is either all of `s`
      or follows a `/`; so it is all of `s` exactly when `s` holds no `/`. */
  lemma {:induction false} LastSegmentIsFinal(s: string)
    ensures var r := LastSegment(s);
            && '/' !in r
            && |r| <= |s| && s[|s| - |r|..] == r
            && (|r| < |s| ==> s[|s| - |r| - 1] == '/')
            && (r == s <==> '/' !in s)
    decreases |s|
  {
    if s != [] && s[|s| - 1] != '/' {
      var init := s[..|s| - 1];
      LastSegmentIsFinal(init);
      var r := LastSegment(s);
      assert r == LastSegment(init) + [s[|s| - 1]];
      assert s == init + [s[|s| - 1]];
      assert '/' in init ==> '/' in s;
    }
  }

  /** The recursive definition agrees with Python's: the last piece that
      `s.split("/")` returns. */
  lemma {:induction false} LastSegmentIsLastPiece(s: string)
    ensures var parts := Split(s, '/'); LastSegment(s) == parts[|parts| - 1]
    decreases |s|
  {
    if s != [] {
      LastSegmentIsLastPiece(s[..|s| - 1]);
    }
  }

  predicate IsAsciiLower(c: char) { 'a' <= c <= 'z' }

  predicate IsAsciiUpper(c: char) { 'A' <= c <= 'Z' }

  /** ASCII upper-casing of one character; every other character is kept. */
  function ToUpper(c: char): (u: char)
    ensures !IsAsciiLower(u)
    ensures IsAsciiLower(c) ==> IsAsciiUpper(u) && u as int == c as int - 32
    ensures !IsAsciiLower(c) ==> u == c
  {
    if IsAsciiLower(c) then (c as int - 32) as char else c
  }

  /** ASCII lower-casing of one character; every other character is kept. */
  function ToLower(c: char): (l: char)
    ensures !IsAsciiUpper(l)
    ensures IsAsciiUpper(c) ==> IsAsciiLower(l) && l as int == c as int + 32
    ensures !IsAsciiUpper(c) ==> l == c
  {
    if IsAsciiUpper(c) then (c as int + 32) as char else c
  }

  function LowerAll(s: string): (r: string)
    ensures |r| == |s|
    ensures forall i :: 0 <= i < |s| ==> r[i] == ToLower(s[i])
  {
    seq(|s|, i requires 0 <= i < |s| => ToLower(s[i]))
  }

  /** `s.capitalize()` over ASCII: the first character upper-cased and every
      other one lower-cased (not title case: later words stay lower case). */
  function Capitalize(s: string): (r: string)
    ensures |r| == |s|
    ensures |s| > 0 ==> r[0] == ToUpper(s[0])
    ensures forall i :: 0 < i < |s| ==> r[i] == ToLower(s[i])
    ensures |r| > 0 ==> !IsAsciiLower(r[0])
    ensures forall i :: 0 < i < |r| ==> !IsAsciiUpper(r[i])
  {
    if s == [] then [] else [ToUpper(s[0])] + LowerAll(s[1..])
  }

  /** Capitalizing twice is capitalizing once. */
  lemma CapitalizeIdempotent(s: string)
    ensures Capitalize(Capitalize(s)) == Capitalize(s)
  {
  }

  /** The casing rule on the two-word name "abc def": the second word keeps
      its lower-case initial. */
  lemma CapitalizeTwoWords()
    ensures Capitalize("abc def") == "Abc def"
    ensures Capitalize("abc def") != "Abc Def"
  {
    var r := Capitalize("abc def");
    assert r[4] == 'd';
  }

  /** The head slice `s[0:n]`: the first `n` characters of `s`, or all of `s`
      when it is shorter; no ellipsis is added. */
  function Truncate(s: string, n: nat): (r: string)
    ensures |r| == if |s| < n then |s| else n
    ensures r == s[..|r|]
  {
    if |s| <= n then s else s[..n]
  }
}
