/** The string helpers of `app/utils.py`: the path-segment sanitiser, the
    relative-path splitter and the PDF/image file-type guess, together with
    the Python string primitives they are built from (`replace`, `split`,
    `join`, `strip`, `lower`, `str(int)`). */
module Utils {

  /** A filesystem path as the sequence of its segments. */
  type Path = seq<string>

  // ------------------------------------------------------------------
  // Character classes

  /** The characters `[A-Za-z0-9._-]` that `_SAFE_SEGMENT_RE` leaves alone. */
  predicate IsSafeChar(c: char) {
    ('A' <= c <= 'Z') || ('a' <= c <= 'z') || ('0' <= c <= '9') || c == '.' || c == '_' || c == '-'
  }

  /** Python's `str.isspace()`: the characters a bare `str.strip()` removes. */
  predicate IsSpace(c: char) {
    ('\t' <= c <= '\r') || ('\U{1c}' <= c <= ' ') || c == '\U{85}' || c == '\U{a0}'
    || c == '\U{1680}' || ('\U{2000}' <= c <= '\U{200a}') || c == '\U{2028}' || c == '\U{2029}'
    || c == '\U{202f}' || c == '\U{205f}' || c == '\U{3000}'
  }

  predicate IsDot(c: char) { c == '.' }

  predicate IsSlash(c: char) { c == '/' }

  /** The two path separators the sanitisers recognise. */
  predicate IsSeparator(c: char) { c == '/' || c == '\\' }

  predicate AllSafe(s: string) { forall i :: 0 <= i < |s| ==> IsSafeChar(s[i]) }

  predicate NoSeparator(s: string) { forall i :: 0 <= i < |s| ==> !IsSeparator(s[i]) }

  predicate AllSeparators(s: string) { forall i :: 0 <= i < |s| ==> IsSeparator(s[i]) }

  lemma AllSafeConcat(a: string, b: string)
    requires AllSafe(a) && AllSafe(b)
    ensures AllSafe(a + b)
  {
    forall i | 0 <= i < |a + b| ensures IsSafeChar((a + b)[i]) {
      if i >= |a| {
        assert (a + b)[i] == b[i - |a|];
      }
    }
  }

  /** `f"{s}_{n}{ext}"` of safe text is a safe segment: it is never empty,
      and its `_` keeps it from being `.` or `..`. */
  lemma NumberedNameSafe(s: string, n: nat, ext: string)
    requires AllSafe(s) && AllSafe(ext)
    ensures IsSafeSegment(s + "_" + NatToString(n) + ext)
  {
    var d := NatToString(n);
    var r := s + "_" + d + ext;
    assert AllSafe(d);
    AllSafeConcat(s, "_");
    AllSafeConcat(s + "_", d);
    AllSafeConcat(s + "_" + d, ext);
    assert r[|s|] == '_';
  }

  lemma SafeCharIsPlain(c: char)
    requires IsSafeChar(c)
    ensures !IsSpace(c) && !IsSeparator(c)
  {
  }

  // ------------------------------------------------------------------
  // str.replace("\\", "/")

  function NormalizeSeparators(s: string): string {
    seq(|s|, i requires 0 <= i < |s| => if s[i] == '\\' then '/' else s[i])
  }

  lemma NormalizeSeparatorsConcat(a: string, b: string)
    ensures NormalizeSeparators(a + b) == NormalizeSeparators(a) + NormalizeSeparators(b)
  {
  }

  /** Text without a backslash is left alone. */
  lemma NormalizeSeparatorsPlain(s: string)
    requires forall i :: 0 <= i < |s| ==> s[i] != '\\'
    ensures NormalizeSeparators(s) == s
  {
  }

  // ------------------------------------------------------------------
  // str.split(sep) and sep.join(parts)

  /** Python's `s.split(sep)` for a one-character separator: the pieces
      between the occurrences of `sep`; there is always at least one. */
  function Split(s: string, sep: char): (parts: seq<string>)
    ensures |parts| >= 1
  {
    if s == [] then [""]
    else
      var rest := Split(s[1..], sep);
      if s[0] == sep then [""] + rest else [[s[0]] + rest[0]] + rest[1..]
  }

  /** Python's `sep.join(parts)`. */
  function Join(parts: seq<string>, sep: string): string {
    if |parts| == 0 then ""
    else if |parts| == 1 then parts[0]
    else parts[0] + sep + Join(parts[1..], sep)
  }

  function Last<T>(s: seq<T>): T
    requires |s| > 0
  {
    s[|s| - 1]
  }

  /** No piece of a split contains the separator. */
  lemma {:induction false} SplitPiecesFree(s: string, sep: char)
    ensures forall k, i :: 0 <= k < |Split(s, sep)| && 0 <= i < |Split(s, sep)[k]| ==> Split(s, sep)[k][i] != sep
  {
    if s != [] {
      SplitPiecesFree(s[1..], sep);
    }
  }

  lemma JoinConsHead(c: char, p: string, tail: seq<string>, sep: string)
    ensures Join([[c] + p] + tail, sep) == [c] + Join([p] + tail, sep)
  {
    if |tail| > 0 {
      assert ([[c] + p] + tail)[1..] == tail;
      assert ([p] + tail)[1..] == tail;
    }
  }

  /** Joining the pieces of a split with the separator gives back the string. */
  lemma {:induction false} JoinSplit(s: string, sep: char)
    ensures Join(Split(s, sep), [sep]) == s
  {
    if s != [] {
      var rest := Split(s[1..], sep);
      JoinSplit(s[1..], sep);
      if s[0] == sep {
        assert ([""] + rest)[1..] == rest;
      } else {
        assert [rest[0]] + rest[1..] == rest;
        JoinConsHead(s[0], rest[0], rest[1..], [sep]);
      }
    }
  }

  /** Splitting a separator-free string gives the string alone. */
  lemma {:induction false} SplitPlain(s: string, sep: char)
    requires forall i :: 0 <= i < |s| ==> s[i] != sep
    ensures Split(s, sep) == [s]
  {
    if s != [] {
      SplitPlain(s[1..], sep);
      assert [s[0]] + s[1..] == s;
    }
  }

  /** A separator splits the string into the pieces before it and after it. */
  lemma {:induction false} SplitConcat(a: string, b: string, sep: char)
    ensures Split(a + [sep] + b, sep) == Split(a, sep) + Split(b, sep)
  {
    var s := a + [sep] + b;
    if a == [] {
      assert s == [sep] + b;
      SplitConsSep(s, sep);
      assert s[1..] == b;
    } else {
      assert s[0] == a[0];
      assert s[1..] == a[1..] + [sep] + b;
      SplitConcat(a[1..], b, sep);
      SplitConcatCons(s, a, b, sep);
    }
  }

  /** The step of `SplitConcat`: a common first character extends the split. */
  lemma SplitConcatCons(s: string, a: string, b: string, sep: char)
    requires s != [] && a != [] && s[0] == a[0]
    requires Split(s[1..], sep) == Split(a[1..], sep) + Split(b, sep)
    ensures Split(s, sep) == Split(a, sep) + Split(b, sep)
  {
    SplitHead(s, sep);
    SplitHead(a, sep);
    if s[0] == sep {
      ConsConcat("", Split(a[1..], sep), Split(b, sep));
    } else {
      HeadConcat([s[0]], Split(a[1..], sep), Split(b, sep));
    }
  }

  lemma SplitHead(s: string, sep: char)
    requires s != []
    ensures s[0] == sep ==> Split(s, sep) == [""] + Split(s[1..], sep)
    ensures s[0] != sep ==> Split(s, sep) == [[s[0]] + Split(s[1..], sep)[0]] + Split(s[1..], sep)[1..]
  {
  }

  lemma ConsConcat<T>(h: T, r: seq<T>, rb: seq<T>)
    ensures [h] + (r + rb) == ([h] + r) + rb
  {
  }

  lemma HeadConcat(h: string, r: seq<string>, rb: seq<string>)
    requires |r| >= 1
    ensures [h + (r + rb)[0]] + (r + rb)[1..] == ([h + r[0]] + r[1..]) + rb
  {
    assert (r + rb)[1..] == r[1..] + rb;
  }

  lemma SplitConsSep(s: string, sep: char)
    requires s != [] && s[0] == sep
    ensures Split(s, sep) == [""] + Split(s[1..], sep)
  {
  }

  /** Splitting a join of separator-free pieces gives the pieces back. */
  lemma {:induction false} SplitJoin(parts: seq<string>, sep: char)
    requires |parts| >= 1
    requires forall k, i :: 0 <= k < |parts| && 0 <= i < |parts[k]| ==> parts[k][i] != sep
    ensures Split(Join(parts, [sep]), sep) == parts
  {
    if |parts| == 1 {
      SplitPlain(parts[0], sep);
    } else {
      SplitJoin(parts[1..], sep);
      SplitPlain(parts[0], sep);
      SplitConcat(parts[0], Join(parts[1..], [sep]), sep);
      assert [parts[0]] + parts[1..] == parts;
    }
  }

  // ------------------------------------------------------------------
  // str.strip(), str.lstrip(chars), str.strip(chars)

  /** Drops the leading characters satisfying `drop`. */
  function LStrip(s: string, drop: char -> bool): string {
    if s != [] && drop(s[0]) then LStrip(s[1..], drop) else s
  }

  /** `LStrip` removes a prefix of droppable characters and stops at the first one that is not. */
  lemma {:induction false} LStripShape(s: string, drop: char -> bool)
    ensures var r := LStrip(s, drop);
      |r| <= |s| && r == s[|s| - |r|..]
      && (forall i :: 0 <= i < |s| - |r| ==> drop(s[i]))
      && (r == [] || !drop(r[0]))
  {
    if s != [] && drop(s[0]) {
      var t := s[1..];
      LStripShape(t, drop);
      var r := LStrip(t, drop);
      assert t[|t| - |r|..] == s[|s| - |r|..];
      forall i | 0 <= i < |s| - |r| ensures drop(s[i]) {
        if i > 0 {
          assert s[i] == t[i - 1];
        }
      }
    }
  }

  /** Drops the trailing characters satisfying `drop`. */
  function RStrip(s: string, drop: char -> bool): string {
    if s != [] && drop(s[|s| - 1]) then RStrip(s[..|s| - 1], drop) else s
  }

  /** `RStrip` removes a suffix of droppable characters and stops at the last one that is not. */
  lemma {:induction false} RStripShape(s: string, drop: char -> bool)
    ensures var r := RStrip(s, drop);
      |r| <= |s| && r == s[..|r|]
      && (forall i :: |r| <= i < |s| ==> drop(s[i]))
      && (r == [] || !drop(r[|r| - 1]))
  {
    if s != [] && drop(s[|s| - 1]) {
      RStripShape(s[..|s| - 1], drop);
    }
  }

  /** Python's `str.strip`: drops leading and trailing characters satisfying `drop`. */
  function Strip(s: string, drop: char -> bool): string {
    RStrip(LStrip(s, drop), drop)
  }

  /** The stripped string has no droppable character at either end. */
  lemma StripEnds(s: string, drop: char -> bool)
    ensures var r := Strip(s, drop); r == [] || (!drop(r[0]) && !drop(r[|r| - 1]))
  {
    var l := LStrip(s, drop);
    var r := RStrip(l, drop);
    LStripShape(s, drop);
    RStripShape(l, drop);
    if r != [] {
      assert r[0] == l[0];
    }
  }

  lemma StripNoop(s: string, drop: char -> bool)
    requires s != [] && !drop(s[0]) && !drop(s[|s| - 1])
    ensures Strip(s, drop) == s
  {
  }

  // ------------------------------------------------------------------
  // str.lower() restricted to ASCII, str.endswith, str.startswith

  function LowerChar(c: char): char {
    if 'A' <= c <= 'Z' then (c as int + 32) as char else c
  }

  function Lower(s: string): string {
    seq(|s|, i requires 0 <= i < |s| => LowerChar(s[i]))
  }

  predicate EndsWith(s: string, suffix: string) {
    |suffix| <= |s| && s[|s| - |suffix|..] == suffix
  }

  predicate StartsWith(s: string, prefix: string) {
    |prefix| <= |s| && s[..|prefix|] == prefix
  }

  // ------------------------------------------------------------------
  // str(n) for a non-negative int

  function DigitChar(d: nat): char
    requires d < 10
  {
    ('0' as int + d) as char
  }

  /** The decimal rendering Python's f-strings give a non-negative int. */
  function NatToString(n: nat): (s: string)
    ensures |s| >= 1
    ensures forall i :: 0 <= i < |s| ==> '0' <= s[i] <= '9'
    ensures n < 10 <==> |s| == 1
  {
    if n < 10 then [DigitChar(n)] else NatToString(n / 10) + [DigitChar(n % 10)]
  }

  /** Different numbers have different renderings. */
  lemma {:induction false} NatToStringInjective(a: nat, b: nat)
    requires NatToString(a) == NatToString(b)
    ensures a == b
  {
    var s := NatToString(a);
    if a >= 10 {
      assert b >= 10;
      assert s[|s| - 1] == DigitChar(a % 10) == DigitChar(b % 10);
      assert s[..|s| - 1] == NatToString(a / 10) == NatToString(b / 10);
      NatToStringInjective(a / 10, b / 10);
    }
  }

  // ------------------------------------------------------------------
  // _SAFE_SEGMENT_RE.sub("_", s)

  /** Replaces every maximal run of characters outside `[A-Za-z0-9._-]` by a
      single `_`, scanning left to right; `inRun` says that the previous
      character was outside the set, so its run's `_` is already emitted. */
  function Collapse(s: string, inRun: bool): string {
    if s == [] then []
    else if IsSafeChar(s[0]) then [s[0]] + Collapse(s[1..], false)
    else if inRun then Collapse(s[1..], true)
    else ['_'] + Collapse(s[1..], true)
  }

  lemma {:induction false} CollapseAlphabet(s: string, inRun: bool)
    ensures AllSafe(Collapse(s, inRun))
  {
    if s != [] {
      CollapseAlphabet(s[1..], IsSafeChar(s[0]) == false);
    }
  }

  lemma {:induction false} CollapseIdentity(s: string, inRun: bool)
    requires AllSafe(s)
    ensures Collapse(s, inRun) == s
  {
    if s != [] {
      CollapseIdentity(s[1..], false);
      assert [s[0]] + s[1..] == s;
    }
  }

  lemma CollapseFirst(s: string)
    requires s != []
    ensures Collapse(s, false) != []
    ensures Collapse(s, false)[0] == if IsSafeChar(s[0]) then s[0] else '_'
  {
  }

  /** An empty output means the input was a run of unsafe characters whose `_` was already emitted. */
  lemma {:induction false} CollapseEmpty(s: string, inRun: bool)
    requires s != [] && Collapse(s, inRun) == []
    ensures inRun && !IsSafeChar(s[|s| - 1])
  {
    if |s| > 1 {
      CollapseEmpty(s[1..], true);
    }
  }

  lemma {:induction false} CollapseLast(s: string, inRun: bool)
    requires s != [] && Collapse(s, inRun) != []
    ensures var r := Collapse(s, inRun);
      r[|r| - 1] == if IsSafeChar(s[|s| - 1]) then s[|s| - 1] else '_'
  {
    var next := !IsSafeChar(s[0]);
    if |s| == 1 {
    } else if Collapse(s[1..], next) == [] {
      CollapseEmpty(s[1..], next);
    } else {
      CollapseLast(s[1..], next);
    }
  }

  /** Text after a safe character is collapsed independently of what precedes it. */
  lemma {:induction false} CollapseAfterSafe(p: string, q: string, inRun: bool)
    requires p != [] && IsSafeChar(p[|p| - 1])
    ensures Collapse(p + q, inRun) == Collapse(p, inRun) + Collapse(q, false)
  {
    var next := !IsSafeChar(p[0]);
    assert (p + q)[0] == p[0];
    assert (p + q)[1..] == p[1..] + q;
    if |p| > 1 {
      CollapseAfterSafe(p[1..], q, next);
    }
  }

  /** A run of unsafe characters adds nothing once its `_` has been emitted. */
  lemma {:induction false} CollapseRunTail(r: string, q: string)
    requires forall i :: 0 <= i < |r| ==> !IsSafeChar(r[i])
    requires q == [] || IsSafeChar(q[0])
    ensures Collapse(r + q, true) == Collapse(q, false)
  {
    if r == [] {
      assert r + q == q;
      if q != [] {
        assert Collapse(q, true) == [q[0]] + Collapse(q[1..], false) == Collapse(q, false);
      }
    } else {
      assert (r + q)[1..] == r[1..] + q;
      CollapseRunTail(r[1..], q);
    }
  }

  /** Each maximal run of unsafe characters becomes exactly one `_`. */
  lemma CollapseRun(p: string, r: string, q: string)
    requires p == [] || IsSafeChar(p[|p| - 1])
    requires r != [] && forall i :: 0 <= i < |r| ==> !IsSafeChar(r[i])
    requires q == [] || IsSafeChar(q[0])
    ensures Collapse(p + r + q, false) == Collapse(p, false) + "_" + Collapse(q, false)
  {
    if p == [] {
      assert p + r + q == r + q;
      CollapseRunStart(r, q);
    } else {
      CollapseRunAfterSafe(p, r, q);
    }
  }

  lemma CollapseRunAfterSafe(p: string, r: string, q: string)
    requires p != [] && IsSafeChar(p[|p| - 1])
    requires r != [] && forall i :: 0 <= i < |r| ==> !IsSafeChar(r[i])
    requires q == [] || IsSafeChar(q[0])
    ensures Collapse(p + r + q, false) == Collapse(p, false) + "_" + Collapse(q, false)
  {
    var rq := r + q;
    CollapseRunStart(r, q);
    assert p + r + q == p + rq;
    CollapseAfterSafe(p, rq, false);
  }

  lemma CollapseRunStart(r: string, q: string)
    requires r != [] && forall i :: 0 <= i < |r| ==> !IsSafeChar(r[i])
    requires q == [] || IsSafeChar(q[0])
    ensures Collapse(r + q, false) == "_" + Collapse(q, false)
  {
    var rq := r + q;
    assert rq[0] == r[0];
    assert rq[1..] == r[1..] + q;
    CollapseRunTail(r[1..], q);
  }

  // ------------------------------------------------------------------
  // safe_path_segment

  /** The text after the last `/` or `\`. */
  function LastSegment(s: string): string {
    Last(Split(NormalizeSeparators(s), '/'))
  }

  /** `safe_path_segment`: keep the last segment, strip whitespace and then
      dots from both ends, collapse unsafe runs to `_`, default to "file". */
  function SafePathSegment(segment: string): string {
    var cleaned := Collapse(Trim(LastSegment(segment)), false);
    if cleaned == "" then "file" else cleaned
  }

  /** `.strip().strip(".")`: whitespace, then dots, off both ends. */
  function Trim(s: string): string {
    Strip(Strip(s, IsSpace), IsDot)
  }

  lemma TrimEnds(s: string)
    ensures var t := Trim(s); t == [] || (t[0] != '.' && t[|t| - 1] != '.')
  {
    StripEnds(Strip(s, IsSpace), IsDot);
  }

  /** The sanitised segment is non-empty, uses only `[A-Za-z0-9._-]`, and
      neither starts nor ends with a dot; in particular it is never `.` or
      `..` and holds no separator. */
  lemma SafePathSegmentShape(segment: string)
    ensures var r := SafePathSegment(segment);
      r != [] && AllSafe(r) && r[0] != '.' && r[|r| - 1] != '.'
      && r != "." && r != ".." && NoSeparator(r)
  {
    var t := Trim(LastSegment(segment));
    TrimEnds(LastSegment(segment));
    CollapseAlphabet(t, false);
    CollapseEnds(t);
    var r := SafePathSegment(segment);
    assert AllSafe(r) && r[0] != '.' && r[|r| - 1] != '.';
    forall i | 0 <= i < |r| ensures !IsSeparator(r[i]) {
      SafeCharIsPlain(r[i]);
    }
  }

  /** Collapsing keeps a dot-free first and last character dot-free. */
  lemma CollapseEnds(t: string)
    requires t == [] || (t[0] != '.' && t[|t| - 1] != '.')
    ensures var c := Collapse(t, false); c == [] || (c[0] != '.' && c[|c| - 1] != '.')
  {
    if t != [] {
      CollapseFirst(t);
      CollapseLast(t, false);
    }
  }

  /** A path ending in a separator names no file: the default "file" is used. */
  lemma SafePathSegmentTrailingSeparator(p: string, c: char)
    requires IsSeparator(c)
    ensures SafePathSegment(p + [c]) == "file"
  {
    NormalizeSeparatorsConcat(p, [c]);
    assert NormalizeSeparators(p + [c]) == NormalizeSeparators(p) + ['/'] + "";
    SplitConcat(NormalizeSeparators(p), "", '/');
    assert LastSegment(p + [c]) == "";
  }

  /** The segment depends only on the text after the last separator. */
  lemma SafePathSegmentAfterSeparator(p: string, c: char, s: string)
    requires IsSeparator(c)
    ensures SafePathSegment(p + [c] + s) == SafePathSegment(s)
  {
    NormalizeSeparatorsConcat(p + [c], s);
    NormalizeSeparatorsConcat(p, [c]);
    var n := NormalizeSeparators(p + [c] + s);
    assert n == NormalizeSeparators(p) + ['/'] + NormalizeSeparators(s);
    SplitConcat(NormalizeSeparators(p), NormalizeSeparators(s), '/');
    assert LastSegment(p + [c] + s) == LastSegment(s);
  }

  lemma LastSegmentPlain(s: string)
    requires NoSeparator(s)
    ensures LastSegment(s) == s
  {
    NormalizeSeparatorsPlain(s);
    SplitPlain(s, '/');
  }

  /** Sanitising twice is sanitising once. */
  lemma SafePathSegmentIdempotent(segment: string)
    ensures SafePathSegment(SafePathSegment(segment)) == SafePathSegment(segment)
  {
    var r := SafePathSegment(segment);
    SafePathSegmentShape(segment);
    LastSegmentPlain(r);
    SafeCharIsPlain(r[0]);
    SafeCharIsPlain(r[|r| - 1]);
    StripNoop(r, IsSpace);
    StripNoop(r, IsDot);
    assert Trim(r) == r;
    CollapseIdentity(r, false);
  }

  // ------------------------------------------------------------------
  // guess_file_type

  /** `guess_file_type`: 0 (PDF) when the lower-cased name ends with ".pdf", else 1 (image). */
  function GuessFileType(filename: string): (t: int)
    ensures t == 0 || t == 1
  {
    if EndsWith(Lower(filename), ".pdf") then 0 else 1
  }

  lemma LowerCharIs(c: char, l: char)
    requires 'a' <= l <= 'z'
    ensures LowerChar(c) == l <==> (c == l || c as int == l as int - 32)
  {
  }

  /** A name is a PDF exactly when its last four characters spell ".pdf" in any letter case. */
  lemma GuessFileTypePdf(filename: string)
    ensures GuessFileType(filename) == 0 <==>
      (|filename| >= 4
       && filename[|filename| - 4] == '.'
       && filename[|filename| - 3] in "pP"
       && filename[|filename| - 2] in "dD"
       && filename[|filename| - 1] in "fF")
  {
    var n := |filename|;
    if n >= 4 {
      var tail := Lower(filename)[n - 4..];
      assert tail == [LowerChar(filename[n - 4]), LowerChar(filename[n - 3]),
                      LowerChar(filename[n - 2]), LowerChar(filename[n - 1])];
      LowerCharIs(filename[n - 3], 'p');
      LowerCharIs(filename[n - 2], 'd');
      LowerCharIs(filename[n - 1], 'f');
      assert LowerChar(filename[n - 4]) == '.' <==> filename[n - 4] == '.';
    }
  }

  // ------------------------------------------------------------------
  // split_relpath

  /** A relative-path part that `split_relpath` keeps. */
  predicate IsCleanPart(p: string) {
    p != "" && p != "." && p != ".."
  }

  function KeepClean(parts: seq<string>): (r: seq<string>)
    ensures |r| <= |parts|
    ensures forall k :: 0 <= k < |r| ==> IsCleanPart(r[k])
  {
    if parts == [] then []
    else if IsCleanPart(parts[0]) then [parts[0]] + KeepClean(parts[1..])
    else KeepClean(parts[1..])
  }

  lemma {:induction false} KeepCleanConcat(a: seq<string>, b: seq<string>)
    ensures KeepClean(a + b) == KeepClean(a) + KeepClean(b)
  {
    if a != [] {
      assert (a + b)[1..] == a[1..] + b;
      KeepCleanConcat(a[1..], b);
    } else {
      assert a + b == b;
    }
  }

  lemma {:induction false} KeepCleanAll(parts: seq<string>)
    requires forall k :: 0 <= k < |parts| ==> IsCleanPart(parts[k])
    ensures KeepClean(parts) == parts
  {
    if parts != [] {
      KeepCleanAll(parts[1..]);
      assert [parts[0]] + parts[1..] == parts;
    }
  }

  /** Every part of `KeepClean(parts)` is one of `parts`, in the same order. */
  lemma {:induction false} KeepCleanSubsequence(parts: seq<string>)
    ensures forall k :: 0 <= k < |KeepClean(parts)| ==> KeepClean(parts)[k] in parts
  {
    if parts != [] {
      KeepCleanSubsequence(parts[1..]);
    }
  }

  /** `split_relpath`: separators normalised to `/`, leading slashes dropped,
      empty, `.` and `..` parts removed. */
  function SplitRelpath(relpath: string): seq<string> {
    var normalized := NormalizeSeparators(relpath);
    var trimmed := LStrip(normalized, IsSlash);
    KeepClean(Split(trimmed, '/'))
  }

  /** Dropping leading slashes only removes empty parts. */
  lemma {:induction false} LStripSlashIrrelevant(s: string)
    ensures KeepClean(Split(LStrip(s, IsSlash), '/')) == KeepClean(Split(s, '/'))
  {
    if s != [] && s[0] == '/' {
      LStripSlashIrrelevant(s[1..]);
      assert Split(s, '/') == [""] + Split(s[1..], '/');
    }
  }

  /** The same parts, without the leading-slash step. */
  lemma SplitRelpathPieces(relpath: string)
    ensures SplitRelpath(relpath) == KeepClean(Split(NormalizeSeparators(relpath), '/'))
  {
    LStripSlashIrrelevant(NormalizeSeparators(relpath));
  }

  /** Every part is clean and contains no separator, whatever the input. */
  lemma SplitRelpathParts(relpath: string)
    ensures forall k :: 0 <= k < |SplitRelpath(relpath)| ==>
      IsCleanPart(SplitRelpath(relpath)[k]) && NoSeparator(SplitRelpath(relpath)[k])
  {
    var n := NormalizeSeparators(relpath);
    var pieces := Split(n, '/');
    SplitRelpathPieces(relpath);
    SplitPiecesFree(n, '/');
    JoinSplit(n, '/');
    KeepCleanSubsequence(pieces);
    var r := SplitRelpath(relpath);
    forall k | 0 <= k < |r| ensures NoSeparator(r[k]) {
      var j :| 0 <= j < |pieces| && pieces[j] == r[k];
      forall i | 0 <= i < |r[k]| ensures !IsSeparator(r[k][i]) {
        PieceOfNormalizedHasNoBackslash(n, pieces, j, i);
      }
    }
  }

  lemma PieceOfNormalizedHasNoBackslash(n: string, pieces: seq<string>, j: int, i: int)
    requires forall x :: 0 <= x < |n| ==> n[x] != '\\'
    requires pieces == Split(n, '/') && 0 <= j < |pieces| && 0 <= i < |pieces[j]|
    ensures pieces[j][i] != '\\'
  {
    JoinSplit(n, '/');
    JoinMembers(pieces, "/", j, i);
  }

  /** Every character of a joined piece is a character of the join. */
  lemma {:induction false} JoinMembers(parts: seq<string>, sep: string, j: int, i: int)
    requires 0 <= j < |parts| && 0 <= i < |parts[j]|
    ensures parts[j][i] in Join(parts, sep)
  {
    if |parts| > 1 {
      if j == 0 {
        assert Join(parts, sep) == parts[0] + (sep + Join(parts[1..], sep));
        assert Join(parts, sep)[i] == parts[0][i];
      } else {
        JoinMembers(parts[1..], sep, j - 1, i);
        var rest := Join(parts[1..], sep);
        var x :| 0 <= x < |rest| && rest[x] == parts[j][i];
        assert Join(parts, sep) == (parts[0] + sep) + rest;
        assert Join(parts, sep)[|parts[0] + sep| + x] == parts[j][i];
      }
    }
  }

  /** The parts of a joined path come out in the order of the two halves. */
  lemma SplitRelpathConcat(a: string, c: char, b: string)
    requires IsSeparator(c)
    ensures SplitRelpath(a + [c] + b) == SplitRelpath(a) + SplitRelpath(b)
  {
    NormalizeSeparatorsConcat(a + [c], b);
    NormalizeSeparatorsConcat(a, [c]);
    assert NormalizeSeparators(a + [c] + b) == NormalizeSeparators(a) + ['/'] + NormalizeSeparators(b);
    SplitConcat(NormalizeSeparators(a), NormalizeSeparators(b), '/');
    KeepCleanConcat(Split(NormalizeSeparators(a), '/'), Split(NormalizeSeparators(b), '/'));
    SplitRelpathPieces(a + [c] + b);
    SplitRelpathPieces(a);
    SplitRelpathPieces(b);
  }

  /** Round trip: joining clean, separator-free parts with "/" and splitting again gives them back. */
  lemma SplitRelpathJoin(parts: seq<string>)
    requires forall k :: 0 <= k < |parts| ==> IsCleanPart(parts[k]) && NoSeparator(parts[k])
    ensures SplitRelpath(Join(parts, "/")) == parts
  {
    var j := Join(parts, "/");
    if parts == [] {
      assert Split(NormalizeSeparators(j), '/') == [""];
    } else {
      JoinNoBackslash(parts);
      NormalizeSeparatorsPlain(j);
      SplitJoin(parts, '/');
      KeepCleanAll(parts);
    }
    SplitRelpathPieces(j);
  }

  /** A property every piece character and every separator character has, every character of the join has. */
  lemma {:induction false} JoinChars(parts: seq<string>, sep: string, P: char -> bool)
    requires forall k, i :: 0 <= k < |parts| && 0 <= i < |parts[k]| ==> P(parts[k][i])
    requires forall i :: 0 <= i < |sep| ==> P(sep[i])
    ensures forall i :: 0 <= i < |Join(parts, sep)| ==> P(Join(parts, sep)[i])
  {
    if |parts| > 1 {
      assert forall k, i :: 0 <= k < |parts| - 1 && 0 <= i < |parts[1..][k]| ==> parts[1..][k][i] == parts[k + 1][i];
      JoinChars(parts[1..], sep, P);
      var rest := Join(parts[1..], sep);
      assert Join(parts, sep) == parts[0] + sep + rest;
      forall i | 0 <= i < |Join(parts, sep)| ensures P(Join(parts, sep)[i]) {
        if i < |parts[0]| {
          assert Join(parts, sep)[i] == parts[0][i];
        } else if i < |parts[0]| + |sep| {
          assert Join(parts, sep)[i] == sep[i - |parts[0]|];
        } else {
          assert Join(parts, sep)[i] == rest[i - |parts[0]| - |sep|];
        }
      }
    }
  }

  lemma JoinNoBackslash(parts: seq<string>)
    requires forall k :: 0 <= k < |parts| ==> NoSeparator(parts[k])
    ensures forall i :: 0 <= i < |Join(parts, "/")| ==> Join(parts, "/")[i] != '\\'
  {
    JoinChars(parts, "/", c => c != '\\');
  }

  // ------------------------------------------------------------------
  // [safe_path_segment(p) for p in s.replace("\\", "/").split("/") if p]

  /** A path segment that cannot leave its parent directory. */
  predicate IsSafeSegment(seg: string) {
    seg != [] && AllSafe(seg) && seg != "." && seg != ".."
  }

  /** The comprehension that `storage.py` and `task_queue.py` use to turn a
      relative path into sanitised segments: empty pieces dropped, every
      other piece passed through `safe_path_segment`. */
  function SafeParts(s: string): Path {
    SanitizeEach(NonEmpty(Split(NormalizeSeparators(s), '/')))
  }

  /** The pieces that `if p` keeps. */
  function NonEmpty(pieces: seq<string>): seq<string> {
    if pieces == [] then []
    else (if pieces[0] == "" then [] else [pieces[0]]) + NonEmpty(pieces[1..])
  }

  function SanitizeEach(pieces: seq<string>): Path {
    seq(|pieces|, k requires 0 <= k < |pieces| => SafePathSegment(pieces[k]))
  }

  /** Every segment of a path is safe. */
  predicate AllSafeSegments(p: Path) {
    forall k :: 0 <= k < |p| ==> IsSafeSegment(p[k])
  }

  /** Appending safe segments to a base keeps the base as a prefix and
      leaves only safe segments after it. */
  lemma AppendSafe(base: Path, tail: Path)
    requires AllSafeSegments(tail)
    ensures var p := base + tail;
      |p| == |base| + |tail| && p[..|base|] == base
      && forall k :: |base| <= k < |p| ==> IsSafeSegment(p[k])
  {
    var p := base + tail;
    assert p[..|base|] == base;
    forall k | |base| <= k < |p| ensures IsSafeSegment(p[k]) {
      assert p[k] == tail[k - |base|];
    }
  }

  lemma SafePathSegmentIsSafe(s: string)
    ensures IsSafeSegment(SafePathSegment(s))
  {
    SafePathSegmentShape(s);
  }

  /** Every sanitised segment is safe, so joining them under a directory stays inside it. */
  lemma SafePartsSafe(s: string)
    ensures forall k :: 0 <= k < |SafeParts(s)| ==> IsSafeSegment(SafeParts(s)[k])
  {
    var pieces := NonEmpty(Split(NormalizeSeparators(s), '/'));
    forall k | 0 <= k < |SafeParts(s)| ensures IsSafeSegment(SafeParts(s)[k]) {
      SafePathSegmentIsSafe(pieces[k]);
    }
  }

  lemma {:induction false} NonEmptyNone(pieces: seq<string>)
    ensures NonEmpty(pieces) == [] <==> forall k :: 0 <= k < |pieces| ==> pieces[k] == ""
  {
    if pieces != [] {
      NonEmptyNone(pieces[1..]);
      if pieces[0] == "" {
        assert forall k :: 1 <= k < |pieces| ==> pieces[k] == pieces[1..][k - 1];
      }
    }
  }

  lemma {:induction false} JoinEmptyPieces(pieces: seq<string>)
    requires forall k :: 0 <= k < |pieces| ==> pieces[k] == ""
    ensures forall i :: 0 <= i < |Join(pieces, "/")| ==> Join(pieces, "/")[i] == '/'
  {
    if |pieces| > 1 {
      JoinEmptyPieces(pieces[1..]);
      assert Join(pieces, "/") == "" + "/" + Join(pieces[1..], "/");
    }
  }

  /** No segment survives exactly when the path is nothing but separators. */
  lemma SafePartsEmpty(s: string)
    ensures SafeParts(s) == [] <==> AllSeparators(s)
  {
    var n := NormalizeSeparators(s);
    var pieces := Split(n, '/');
    NonEmptyNone(pieces);
    JoinSplit(n, '/');
    if SafeParts(s) == [] {
      JoinEmptyPieces(pieces);
      forall i | 0 <= i < |s| ensures IsSeparator(s[i]) {
        assert n[i] == '/';
      }
    } else {
      var k :| 0 <= k < |pieces| && pieces[k] != "";
      SplitPiecesFree(n, '/');
      PieceOfNormalizedHasNoBackslash(n, pieces, k, 0);
      JoinMembers(pieces, "/", k, 0);
      var x :| 0 <= x < |n| && n[x] == pieces[k][0];
      assert !IsSeparator(s[x]);
    }
  }
}
