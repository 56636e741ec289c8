/** The string operations the services use, on ASCII letters and blanks. */
module Text {

  function LowerChar(c: char): (r: char)
  {
    if 'A' <= c <= 'Z' then (c as int + 32) as char else c
  }

  /** `toLowerCase`. */
  function Lower(s: string): (r: string)
    ensures |r| == |s|
    ensures forall i :: 0 <= i < |s| ==> r[i] == LowerChar(s[i])
  {
    seq(|s|, i requires 0 <= i < |s| => LowerChar(s[i]))
  }

  /** Each capital becomes the small letter at its place in the alphabet, and everything else stays. */
  lemma LowerLowersLetters(s: string, i: nat)
    requires i < |s|
    ensures if 'A' <= s[i] <= 'Z' then 'a' <= Lower(s)[i] <= 'z' && Lower(s)[i] - 'a' == s[i] - 'A' else Lower(s)[i] == s[i]
    ensures Lower(Lower(s)) == Lower(s)
  {
    forall k | 0 <= k < |s| ensures Lower(Lower(s))[k] == Lower(s)[k] {
      assert LowerChar(LowerChar(s[k])) == LowerChar(s[k]);
    }
  }

  predicate IsBlank(c: char)
  {
    c == ' ' || c == '\t' || c == '\n' || c == '\r'
  }

  function TrimStart(s: string): (r: string)
  {
    if s != "" && IsBlank(s[0]) then TrimStart(s[1..]) else s
  }

  function TrimEnd(s: string): (r: string)
  {
    if s != "" && IsBlank(s[|s| - 1]) then TrimEnd(s[..|s| - 1]) else s
  }

  /** `trim`. */
  function Trim(s: string): (r: string)
  {
    TrimEnd(TrimStart(s))
  }

  /** Trimming takes off the blanks at both ends, all of them and nothing else. */
  lemma TrimTakesOffTheBlanks(s: string) returns (before: string, after: string)
    ensures s == before + Trim(s) + after
    ensures forall c :: c in before + after ==> IsBlank(c)
    ensures Trim(s) != "" ==> !IsBlank(Trim(s)[0]) && !IsBlank(Trim(s)[|Trim(s)| - 1])
  {
    var rest := TrimStart(s);
    before := BlanksBefore(s);
    after := BlanksAfter(rest);
    assert Trim(s) <= rest;
  }

  lemma TrimmedAwayExactlyWhen(s: string)
    ensures Trim(s) == "" <==> forall i :: 0 <= i < |s| ==> IsBlank(s[i])
  {
    var before, after := TrimTakesOffTheBlanks(s);
    if Trim(s) == "" {
      forall i | 0 <= i < |s| ensures IsBlank(s[i]) {
        assert s == before + after;
        assert s[i] in before + after;
      }
    } else {
      assert s[|before|] == Trim(s)[0];
    }
  }

  lemma {:induction false} BlanksBefore(s: string) returns (before: string)
    ensures s == before + TrimStart(s) && forall c :: c in before ==> IsBlank(c)
    ensures TrimStart(s) != "" ==> !IsBlank(TrimStart(s)[0])
  {
    before := "";
    if s != "" && IsBlank(s[0]) {
      var rest := BlanksBefore(s[1..]);
      before := [s[0]] + rest;
    }
  }

  lemma {:induction false} BlanksAfter(s: string) returns (after: string)
    ensures s == TrimEnd(s) + after && forall c :: c in after ==> IsBlank(c)
    ensures TrimEnd(s) != "" ==> !IsBlank(TrimEnd(s)[|TrimEnd(s)| - 1])
  {
    after := "";
    if s != "" && IsBlank(s[|s| - 1]) {
      var rest := BlanksAfter(s[..|s| - 1]);
      after := rest + [s[|s| - 1]];
    }
  }

  /** What table names are compared by when the schema is narrowed. */
  function Normalize(name: string): (r: string)
  {
    Lower(Trim(name))
  }

  lemma {:induction false} LowerTrimStart(s: string)
    ensures TrimStart(Lower(s)) == Lower(TrimStart(s))
  {
    if s != "" && IsBlank(s[0]) {
      assert Lower(s)[1..] == Lower(s[1..]);
      LowerTrimStart(s[1..]);
    }
  }

  lemma {:induction false} LowerTrimEnd(s: string)
    ensures TrimEnd(Lower(s)) == Lower(TrimEnd(s))
  {
    if s != "" && IsBlank(s[|s| - 1]) {
      assert Lower(s)[..|s| - 1] == Lower(s[..|s| - 1]);
      LowerTrimEnd(s[..|s| - 1]);
    }
  }

  /** Trimming and lower-casing a name may be done in either order. */
  lemma NormalizeCommutes(s: string)
    ensures Normalize(s) == Trim(Lower(s))
  {
    LowerTrimStart(s);
    LowerTrimEnd(TrimStart(s));
  }

  lemma {:induction false} TrimOnlyShortens(s: string)
    ensures |TrimStart(s)| <= |s| && (|TrimStart(s)| == |s| ==> TrimStart(s) == s)
    ensures |TrimEnd(s)| <= |s| && (|TrimEnd(s)| == |s| ==> TrimEnd(s) == s)
  {
    if s != "" {
      TrimOnlyShortens(s[1..]);
      TrimOnlyShortens(s[..|s| - 1]);
    }
  }

  /** A name that is its own normal form has nothing to trim. */
  lemma NormalIsTrimmed(s: string)
    requires Normalize(s) == s
    ensures Trim(s) == s
  {
    TrimOnlyShortens(s);
    TrimOnlyShortens(TrimStart(s));
  }

  /** `entry.split('::').pop()`: what follows the last separator, scanning from the left. */
  function LastSegment(entry: string): (r: string)
    decreases |entry|
  {
    AfterSeparators(entry, entry)
  }

  /** `segment` is where the current segment starts, `rest` what is still to be scanned. */
  function AfterSeparators(segment: string, rest: string): (r: string)
    decreases |rest|
  {
    if |rest| < 2 then segment
    else if rest[0] == ':' && rest[1] == ':' then AfterSeparators(rest[2..], rest[2..])
    else AfterSeparators(segment, rest[1..])
  }

  lemma {:induction false} SegmentWithoutSeparator(segment: string, rest: string)
    requires ':' !in rest
    ensures AfterSeparators(segment, rest) == segment
    decreases |rest|
  {
    if |rest| >= 2 {
      SegmentWithoutSeparator(segment, rest[1..]);
    }
  }

  lemma {:induction false} SegmentAfterSeparator(segment: string, part: string, tail: string)
    requires ':' !in part
    ensures AfterSeparators(segment, part + "::" + tail) == AfterSeparators(tail, tail)
    decreases |part|
  {
    var rest := part + "::" + tail;
    if part == "" {
      assert rest[2..] == tail;
    } else {
      assert rest[0] == part[0];
      assert rest[1..] == part[1..] + "::" + tail;
      SegmentAfterSeparator(segment, part[1..], tail);
    }
  }

  /** Code-unit order, which is how `sort()` compares strings. */
  predicate Before(a: string, b: string)
  {
    b != "" && (a == "" || a[0] < b[0] || (a[0] == b[0] && Before(a[1..], b[1..])))
  }

  lemma {:induction false} BeforeIsTransitive(a: string, b: string, c: string)
    requires Before(a, b) && Before(b, c)
    ensures Before(a, c)
  {
    if a != "" && a[0] == b[0] && b[0] == c[0] {
      BeforeIsTransitive(a[1..], b[1..], c[1..]);
    }
  }

  lemma {:induction false} BeforeIsTotal(a: string, b: string)
    ensures a == b || Before(a, b) || Before(b, a)
  {
    if a != "" && b != "" && a[0] == b[0] {
      BeforeIsTotal(a[1..], b[1..]);
      assert a == [a[0]] + a[1..] && b == [b[0]] + b[1..];
    }
  }

  ghost predicate Ascending(s: seq<string>)
  {
    forall i, j :: 0 <= i < j < |s| ==> Before(s[i], s[j])
  }

  function InsertSorted(x: string, s: seq<string>): (r: seq<string>)
  {
    if s == [] || Before(x, s[0]) then [x] + s
    else if x == s[0] then s
    else [s[0]] + InsertSorted(x, s[1..])
  }

  /** `[...new Set(names)].sort()`. */
  function SortedUnique(names: seq<string>): (r: seq<string>)
  {
    if names == [] then [] else InsertSorted(names[0], SortedUnique(names[1..]))
  }

  lemma {:induction false} InsertSortedMember(x: string, s: seq<string>, y: string)
    ensures y in InsertSorted(x, s) <==> y == x || y in s
  {
    if s != [] && !Before(x, s[0]) && x != s[0] {
      InsertSortedMember(x, s[1..], y);
    }
  }

  lemma {:induction false} InsertSortedAscends(x: string, s: seq<string>)
    requires Ascending(s)
    ensures Ascending(InsertSorted(x, s))
  {
    if s == [] {
    } else if Before(x, s[0]) {
      forall j | 0 <= j < |s| ensures Before(x, s[j]) {
        if j > 0 { BeforeIsTransitive(x, s[0], s[j]); }
      }
    } else if x != s[0] {
      BeforeIsTotal(x, s[0]);
      InsertSortedAscends(x, s[1..]);
      var rest := InsertSorted(x, s[1..]);
      forall j | 0 <= j < |rest| ensures Before(s[0], rest[j]) {
        InsertSortedMember(x, s[1..], rest[j]);
        if rest[j] in s[1..] {
          var k :| 0 <= k < |s[1..]| && s[1..][k] == rest[j];
          assert s[k + 1] == rest[j];
        }
      }
    }
  }

  /** Sorting and de-duplicating keeps exactly the names given, once each, in order. */
  lemma {:induction false} SortedUniqueKeepsTheNames(names: seq<string>)
    ensures Ascending(SortedUnique(names))
    ensures forall y :: y in SortedUnique(names) <==> y in names
  {
    if names != [] {
      SortedUniqueKeepsTheNames(names[1..]);
      InsertSortedAscends(names[0], SortedUnique(names[1..]));
      forall y ensures y in SortedUnique(names) <==> y in names {
        InsertSortedMember(names[0], SortedUnique(names[1..]), y);
      }
    }
  }

  lemma {:induction false} BeforeIsStrict(a: string)
    ensures !Before(a, a)
  {
    if a != "" {
      BeforeIsStrict(a[1..]);
    }
  }

  lemma FirstOfAscending(a: seq<string>, b: seq<string>)
    requires Ascending(a) && Ascending(b) && a != [] && b != []
    requires forall y :: y in a <==> y in b
    ensures a[0] == b[0]
  {
    assert a[0] in a && b[0] in b;
    var i :| 0 <= i < |b| && b[i] == a[0];
    var j :| 0 <= j < |a| && a[j] == b[0];
    if i != 0 {
      assert Before(b[0], b[i]);
      if j != 0 {
        assert Before(a[0], a[j]);
        BeforeIsTransitive(a[0], b[0], a[0]);
      }
      BeforeIsStrict(a[0]);
    }
  }

  lemma TailOfAscending(a: seq<string>, y: string)
    requires Ascending(a) && a != []
    ensures y in a[1..] <==> y in a && y != a[0]
  {
    BeforeIsStrict(a[0]);
    if y in a && y != a[0] {
      var i :| 0 <= i < |a| && a[i] == y;
      assert a[1..][i - 1] == y;
    }
    if y in a[1..] {
      var i :| 0 <= i < |a[1..]| && a[1..][i] == y;
      assert Before(a[0], a[i + 1]);
    }
  }

  /** A sorted list without repeats is determined by the names on it. */
  lemma {:induction false} AscendingIsUnique(a: seq<string>, b: seq<string>)
    requires Ascending(a) && Ascending(b)
    requires forall y :: y in a <==> y in b
    ensures a == b
  {
    assert b != [] ==> b[0] in a;
    if a != [] {
      assert a[0] in b;
      FirstOfAscending(a, b);
      forall y ensures y in a[1..] <==> y in b[1..] {
        TailOfAscending(a, y);
        TailOfAscending(b, y);
      }
      AscendingIsUnique(a[1..], b[1..]);
      assert a == [a[0]] + a[1..] && b == [b[0]] + b[1..];
    }
  }
}
