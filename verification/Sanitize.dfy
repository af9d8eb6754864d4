// sanitizeMetricName: every leftmost, greedy match of _*[^0-9A-Za-z_]+_* becomes one "_".
module Sanitize {
  import opened Common

  predicate Alnum(c: char) { '0' <= c <= '9' || 'A' <= c <= 'Z' || 'a' <= c <= 'z' }

  predicate Word(c: char) { Alnum(c) || c == '_' }

  // ---------- the pattern ----------

  // The first m characters of s match _*[^0-9A-Za-z_]+_*.
  ghost predicate Matches(s: string, m: nat)
    requires m <= |s|
  {
    exists i, j :: 0 <= i < j <= m && MatchesAs(s, i, j, m)
  }

  predicate MatchesAs(s: string, i: nat, j: nat, m: nat)
    requires i <= j <= m <= |s|
  {
    && (forall k :: 0 <= k < i ==> s[k] == '_')
    && (forall k :: i <= k < j ==> !Word(s[k]))
    && (forall k :: j <= k < m ==> s[k] == '_')
  }

  // ---------- the scan ----------

  // The end of the run of underscores, and of other characters, that starts at i.
  function UnderscoresEnd(s: string, i: nat): (n: nat)
    requires i <= |s|
    ensures i <= n <= |s| && forall k :: i <= k < n ==> s[k] == '_'
    ensures n < |s| ==> s[n] != '_'
    decreases |s| - i
  {
    if i < |s| && s[i] == '_' then UnderscoresEnd(s, i + 1) else i
  }

  function OthersEnd(s: string, i: nat): (n: nat)
    requires i <= |s|
    ensures i <= n <= |s| && forall k :: i <= k < n ==> !Word(s[k])
    ensures n < |s| ==> Word(s[n])
    decreases |s| - i
  {
    if i < |s| && !Word(s[i]) then OthersEnd(s, i + 1) else i
  }

  // The length of the greedy match at the start of s, or 0.
  function MatchLength(s: string): (n: nat)
    ensures n <= |s|
  {
    var u := UnderscoresEnd(s, 0);
    var b := OthersEnd(s, u);
    if b == u then 0 else UnderscoresEnd(s, b)
  }

  // regexp.ReplaceAllString(name, "_")
  function Sanitize(s: string): string {
    if s == "" then ""
    else if MatchLength(s) > 0 then "_" + Sanitize(s[MatchLength(s)..])
    else [s[0]] + Sanitize(s[1..])
  }

  lemma MatchFitsScan(s: string, i: nat, j: nat, m: nat)
    requires i < j <= m <= |s| && MatchesAs(s, i, j, m)
    ensures m <= MatchLength(s)
  {
    assert !Word(s[i]);
    var u := UnderscoresEnd(s, 0);
    assert u == i;
    var b := OthersEnd(s, u);
    assert j <= b;
    assert j < m ==> s[j] == '_';
    assert j < m ==> j == b;
  }

  // The scan is the pattern: it finds the longest prefix that matches, and none if none does.
  lemma ScanFindsLongestMatch(s: string)
    ensures MatchLength(s) > 0 ==> Matches(s, MatchLength(s))
    ensures forall m :: 0 <= m <= |s| && Matches(s, m) ==> m <= MatchLength(s)
  {
    var u := UnderscoresEnd(s, 0);
    var b := OthersEnd(s, u);
    if b > u {
      assert MatchesAs(s, u, b, MatchLength(s));
    }
    forall m | 0 <= m <= |s| && Matches(s, m) ensures m <= MatchLength(s) {
      var i, j :| 0 <= i < j <= m && MatchesAs(s, i, j, m);
      MatchFitsScan(s, i, j, m);
    }
  }

  // ---------- for every name ----------

  predicate AllWord(s: string) { forall i :: 0 <= i < |s| ==> Word(s[i]) }

  lemma MatchIsNotAlnum(s: string)
    ensures forall i :: 0 <= i < MatchLength(s) ==> !Alnum(s[i])
    ensures s != "" && !Word(s[0]) ==> MatchLength(s) > 0
    ensures AllWord(s) ==> MatchLength(s) == 0
    ensures s != "" && Alnum(s[0]) ==> MatchLength(s) == 0
  {
  }

  lemma {:induction false} FilterAlnumNone(s: string)
    requires forall i :: 0 <= i < |s| ==> !Alnum(s[i])
    ensures Filter(Alnum, s) == []
  {
    if s != "" { FilterAlnumNone(s[1..]); }
  }

  lemma {:induction false} SanitizedIsWord(s: string)
    ensures AllWord(Sanitize(s)) && |Sanitize(s)| <= |s|
  {
    if s != "" {
      MatchIsNotAlnum(s);
      SanitizedIsWord(s[if MatchLength(s) > 0 then MatchLength(s) else 1..]);
    }
  }

  lemma {:induction false} SanitizedKeepsAlnum(s: string)
    ensures Filter(Alnum, Sanitize(s)) == Filter(Alnum, s)
  {
    if s != "" {
      var n := MatchLength(s);
      MatchIsNotAlnum(s);
      if n > 0 {
        SanitizedKeepsAlnum(s[n..]);
        assert s == s[..n] + s[n..];
        FilterConcat(Alnum, s[..n], s[n..]);
        FilterAlnumNone(s[..n]);
        FilterConcat(Alnum, "_", Sanitize(s[n..]));
        FilterAlnumNone("_");
      } else {
        SanitizedKeepsAlnum(s[1..]);
        assert ([s[0]] + Sanitize(s[1..]))[1..] == Sanitize(s[1..]);
      }
    }
  }

  // The result uses only [0-9A-Za-z_], never grows, and keeps letters and digits in order.
  lemma SanitizedIsAName(s: string)
    ensures forall i :: 0 <= i < |Sanitize(s)| ==>
      var c := Sanitize(s)[i]; '0' <= c <= '9' || 'A' <= c <= 'Z' || 'a' <= c <= 'z' || c == '_'
    ensures |Sanitize(s)| <= |s|
    ensures Filter((c: char) => '0' <= c <= '9' || 'A' <= c <= 'Z' || 'a' <= c <= 'z', Sanitize(s))
         == Filter((c: char) => '0' <= c <= '9' || 'A' <= c <= 'Z' || 'a' <= c <= 'z', s)
  {
    SanitizedIsWord(s);
    SanitizedKeepsAlnum(s);
    FilterSame((c: char) => '0' <= c <= '9' || 'A' <= c <= 'Z' || 'a' <= c <= 'z', Alnum, s);
    FilterSame((c: char) => '0' <= c <= '9' || 'A' <= c <= 'Z' || 'a' <= c <= 'z', Alnum, Sanitize(s));
  }

  lemma {:induction false} NamesAreUnchanged(s: string)
    requires AllWord(s)
    ensures Sanitize(s) == s
  {
    if s != "" {
      MatchIsNotAlnum(s);
      NamesAreUnchanged(s[1..]);
    }
  }

  lemma SanitizeIsIdempotent(s: string)
    ensures Sanitize(Sanitize(s)) == Sanitize(s)
    ensures Sanitize(s) == s <==> forall i :: 0 <= i < |s| ==>
      '0' <= s[i] <= '9' || 'A' <= s[i] <= 'Z' || 'a' <= s[i] <= 'z' || s[i] == '_'
  {
    SanitizedIsWord(s);
    NamesAreUnchanged(Sanitize(s));
    if AllWord(s) { NamesAreUnchanged(s); }
  }

  // ---------- Kubernetes names ----------

  // No underscore, and a letter or digit at both ends.
  predicate KubernetesName(s: string) { '_' !in s && s != "" && Alnum(s[0]) && Alnum(s[|s| - 1]) }

  function AlnumRun(s: string): (n: nat)
    ensures n <= |s|
    ensures forall i :: 0 <= i < n ==> Alnum(s[i])
    ensures n < |s| ==> !Alnum(s[n])
  {
    if s != "" && Alnum(s[0]) then 1 + AlnumRun(s[1..]) else 0
  }

  // The maximal runs of letters and digits, in order.
  function Runs(s: string): seq<string> {
    if s == "" then []
    else if Alnum(s[0]) then [s[..AlnumRun(s)]] + Runs(s[AlnumRun(s)..])
    else Runs(s[1..])
  }

  function Join(runs: seq<string>): string {
    if runs == [] then "" else if |runs| == 1 then runs[0] else runs[0] + "_" + Join(runs[1..])
  }

  lemma {:induction false} RunsAreNames(s: string)
    ensures forall i :: 0 <= i < |Runs(s)| ==> Runs(s)[i] != "" && '_' !in Runs(s)[i]
  {
    if s != "" {
      if Alnum(s[0]) {
        RunsAreNames(s[AlnumRun(s)..]);
      } else {
        RunsAreNames(s[1..]);
      }
    }
  }

  lemma {:induction false} CopyRun(s: string)
    ensures Sanitize(s) == s[..AlnumRun(s)] + Sanitize(s[AlnumRun(s)..])
  {
    var n := AlnumRun(s);
    if n == 0 {
      assert s[0..] == s;
    } else {
      MatchIsNotAlnum(s);
      CopyRun(s[1..]);
      var run, tail := s[1..][..n - 1], s[1..][n - 1..];
      assert tail == s[n..];
      assert s[..n] == [s[0]] + run;
      assert Sanitize(s) == [s[0]] + (run + Sanitize(tail));
      ConcatAssociative([s[0]], run, Sanitize(tail));
    }
  }

  lemma {:induction false} SkipOthers(s: string, n: nat)
    requires n <= |s| && forall i :: 0 <= i < n ==> !Alnum(s[i])
    ensures Runs(s) == Runs(s[n..])
  {
    if n == 0 {
      assert s[0..] == s;
    } else {
      SkipOthers(s[1..], n - 1);
      assert s[1..][n - 1..] == s[n..];
    }
  }

  // A gap in a name is replaced whole, and a run follows it.
  lemma GapIsOneMatch(s: string)
    requires s != "" && '_' !in s && !Alnum(s[0]) && Alnum(s[|s| - 1])
    ensures 0 < MatchLength(s) < |s| && Alnum(s[MatchLength(s)])
  {
    assert forall k :: 0 <= k < |s| ==> s[k] != '_';
    assert UnderscoresEnd(s, 0) == 0;
    var b := OthersEnd(s, 0);
    assert 0 < b < |s|;
    assert UnderscoresEnd(s, b) == b;
  }

  lemma SuffixOfName(s: string, n: nat)
    requires n < |s| && '_' !in s
    ensures '_' !in s[n..] && s[n..][|s| - n - 1] == s[|s| - 1] && s[n..][0] == s[n]
  {
  }

  // A sanitized Kubernetes name is its runs of letters and digits joined by underscores.
  lemma {:induction false} SanitizedNameIsJoinedRuns(s: string)
    requires KubernetesName(s)
    ensures Runs(s) != [] && Sanitize(s) == Join(Runs(s))
  {
    var n := AlnumRun(s);
    CopyRun(s);
    if n == |s| {
      assert s[..n] == s && s[n..] == "";
    } else {
      var gap := s[n..];
      SuffixOfName(s, n);
      GapIsOneMatch(gap);
      var m := MatchLength(gap);
      SuffixOfName(gap, m);
      SanitizedNameIsJoinedRuns(gap[m..]);
      MatchIsNotAlnum(gap);
      SkipOthers(gap, m);
      JoinOneMore(s[..n], Runs(gap[m..]));
      assert Runs(s) == [s[..n]] + Runs(gap[m..]);
      assert Sanitize(gap) == "_" + Sanitize(gap[m..]);
    }
  }

  lemma JoinOneMore(run: string, runs: seq<string>)
    requires runs != []
    ensures Join([run] + runs) == run + ("_" + Join(runs))
  {
    assert ([run] + runs)[1..] == runs;
    ConcatAssociative(run, "_", Join(runs));
  }

  lemma FirstUnderscoreSplits(a: string, b: string, x: string, y: string)
    requires '_' !in a && '_' !in b
    requires a + "_" + x == b + "_" + y
    ensures a == b && x == y
  {
    var s, t := a + "_" + x, b + "_" + y;
    assert forall i :: 0 <= i < |a| ==> s[i] != '_';
    assert forall i :: 0 <= i < |b| ==> t[i] != '_';
    assert s[|a|] == '_' && t[|b|] == '_';
    assert |a| == |b|;
    assert s[..|a|] == a && t[..|b|] == b;
    assert s[|a| + 1..] == x && t[|b| + 1..] == y;
  }

  predicate PlainRuns(runs: seq<string>) {
    runs != [] && forall i :: 0 <= i < |runs| ==> runs[i] != "" && '_' !in runs[i]
  }

  lemma JoinUnderscore(runs: seq<string>)
    requires PlainRuns(runs)
    ensures '_' in Join(runs) <==> |runs| > 1
  {
    if |runs| > 1 {
      assert (runs[0] + "_" + Join(runs[1..]))[|runs[0]|] == '_';
    }
  }

  lemma {:induction false} JoinIsInjective(a: seq<string>, b: seq<string>)
    requires PlainRuns(a) && PlainRuns(b) && Join(a) == Join(b)
    ensures a == b
  {
    JoinUnderscore(a);
    JoinUnderscore(b);
    if |a| > 1 {
      FirstUnderscoreSplits(a[0], b[0], Join(a[1..]), Join(b[1..]));
      JoinIsInjective(a[1..], b[1..]);
      assert a == [a[0]] + a[1..] && b == [b[0]] + b[1..];
    }
  }

  // Two Kubernetes names collide if and only if their runs of letters and digits are equal.
  lemma CollisionIff(a: string, b: string)
    requires KubernetesName(a) && KubernetesName(b)
    ensures Sanitize(a) == Sanitize(b) <==> Runs(a) == Runs(b)
  {
    SanitizedNameIsJoinedRuns(a);
    SanitizedNameIsJoinedRuns(b);
    RunsAreNames(a);
    RunsAreNames(b);
    if Sanitize(a) == Sanitize(b) {
      JoinIsInjective(Runs(a), Runs(b));
    }
  }
}
