/**
  What the MX, SRV and CAA patterns capture from a listing laid out the way the
  cPanel zone editor shows one: `Label: value` fields separated by single
  blanks. Each field of such a listing is matched by the backtracking matcher
  of `Pattern` exactly as written, so the values the importer records are the
  listing's own values.
 */
module Listings {
  import opened Wrappers
  import opened Text
  import opened Pattern

  /** One field of a listing: its caption (with the colon), a blank, its value. */
  function FieldLine(caption: string, v: string): string {
    caption + " " + v
  }

  /** The MX listing `Priority: <p> Destination: <d>`. */
  function MxListing(priority: string, destination: string): string {
    FieldLine("Priority:", priority) + " " + FieldLine("Destination:", destination)
  }

  /** The SRV listing `Priority: <p> Weight: <w> Port: <n> Target: <t>`. */
  function SrvListing(priority: string, weight: string, port: string, target: string): string {
    FieldLine("Priority:", priority) + " " + (FieldLine("Weight:", weight) + " "
      + (FieldLine("Port:", port) + " " + FieldLine("Target:", target)))
  }

  /** The CAA listing `Flag: <f> Tag: <t> Value: <v>`. */
  function CaaListing(flag: string, tag: string, value: string): string {
    FieldLine("Flag:", flag) + " " + (FieldLine("Tag:", tag) + " " + FieldLine("Value:", value))
  }

  /** Every character of `v` is of class `k`. */
  predicate OfClass(v: string, k: CharClass) {
    forall i :: 0 <= i < |v| ==> InClass(v[i], k)
  }

  /** The lower-case literal `key` starts nowhere in `s` from `from` on. */
  predicate NoKeyFrom(s: string, key: string, from: nat) {
    forall q :: from <= q <= |s| ==> !LitAt(s, q, key)
  }

  /** A pattern without `\b`, whose matches depend only on the text from the match position on. */
  predicate NoBoundary(ps: seq<Piece>) {
    forall i :: 0 <= i < |ps| ==> !ps[i].WordBoundary?
  }

  // ---- The matcher on a text with something in front of it ----

  lemma {:induction false} RunLengthShift(a: string, t: string, pos: nat, k: CharClass)
    requires pos <= |t|
    ensures RunLength(a + t, |a| + pos, k) == RunLength(t, pos, k)
    decreases |t| - pos
  {
    if pos < |t| {
      assert (a + t)[|a| + pos] == t[pos];
      RunLengthShift(a, t, pos + 1, k);
    }
  }

  lemma LitAtShift(a: string, t: string, pos: nat, x: string)
    requires pos <= |t|
    ensures LitAt(a + t, |a| + pos, x) == LitAt(t, pos, x)
  {
    if pos + |x| <= |t| {
      assert (a + t)[|a| + pos..|a| + pos + |x|] == t[pos..pos + |x|];
    }
  }

  /** Text in front of the match position changes nothing for a pattern without `\b`. */
  lemma {:induction false} MatchAtShift(a: string, t: string, pos: nat, ps: seq<Piece>)
    requires pos <= |t| && NoBoundary(ps)
    ensures MatchAt(a + t, |a| + pos, ps) == MatchAt(t, pos, ps)
    decreases |ps|, 2, 0
  {
    if ps != [] {
      var rest := ps[1..];
      assert ps == [ps[0]] + rest;
      assert NoBoundary(rest);
      match ps[0]
      case Lit(_) => LitShift(a, t, pos, ps);
      case Run(_, _, _) => RunShift(a, t, pos, ps[0], rest);
      case End => EndShift(a, t, pos, rest);
    }
  }

  lemma {:induction false} LitShift(a: string, t: string, pos: nat, ps: seq<Piece>)
    requires pos <= |t| && ps != [] && ps[0].Lit? && NoBoundary(ps[1..])
    ensures MatchAt(a + t, |a| + pos, ps) == MatchAt(t, pos, ps)
    decreases |ps|, 1, 0
  {
    var x := ps[0].text;
    LitAtShift(a, t, pos, x);
    if LitAt(t, pos, x) {
      MatchAtShift(a, t, pos + |x|, ps[1..]);
    }
    LitHead(a + t, |a| + pos, ps);
    LitHead(t, pos, ps);
  }

  lemma LitHit(s: string, pos: nat, x: string, rest: seq<Piece>)
    requires pos <= |s| && LitAt(s, pos, x)
    ensures MatchAt(s, pos, [Lit(x)] + rest) == MatchAt(s, pos + |x|, rest)
  {
    MatchAtLit(s, pos, x, rest);
  }

  lemma LitMiss(s: string, pos: nat, x: string, rest: seq<Piece>)
    requires pos <= |s| && !LitAt(s, pos, x)
    ensures MatchAt(s, pos, [Lit(x)] + rest) == None
  {
    MatchAtLit(s, pos, x, rest);
  }

  lemma {:induction false} EndShift(a: string, t: string, pos: nat, rest: seq<Piece>)
    requires pos <= |t| && NoBoundary(rest)
    ensures MatchAt(a + t, |a| + pos, [End] + rest) == MatchAt(t, pos, [End] + rest)
    decreases |rest| + 1, 1, 0
  {
    assert ([End] + rest)[0] == End && ([End] + rest)[1..] == rest;
    if pos == |t| {
      MatchAtShift(a, t, pos, rest);
    }
  }

  lemma {:induction false} RunShift(a: string, t: string, pos: nat, run: Piece, rest: seq<Piece>)
    requires pos <= |t| && run.Run? && NoBoundary(rest)
    ensures MatchAt(a + t, |a| + pos, [run] + rest) == MatchAt(t, pos, [run] + rest)
    decreases |rest| + 1, 1, 0
  {
    MatchAtRun(a + t, |a| + pos, run, rest);
    MatchAtRun(t, pos, run, rest);
    RunLengthShift(a, t, pos, run.cls);
    TryRunShift(a, t, pos, run, rest, RunLength(t, pos, run.cls));
  }

  lemma {:induction false} TryRunShift(a: string, t: string, pos: nat, run: Piece, rest: seq<Piece>, k: nat)
    requires run.Run? && pos + k <= |t| && NoBoundary(rest)
    ensures TryRun(a + t, |a| + pos, run, rest, k) == TryRun(t, pos, run, rest, k)
    decreases |rest| + 1, 0, k
  {
    if k >= run.min {
      MatchAtShift(a, t, pos + k, rest);
      if MatchAt(t, pos + k, rest).Some? {
        TryRunShiftFound(a, t, pos, run, rest, k);
      } else if k > 0 {
        TryRunShift(a, t, pos, run, rest, k - 1);
        TryRunShiftBack(a, t, pos, run, rest, k);
      }
    }
  }

  lemma TryRunShiftFound(a: string, t: string, pos: nat, run: Piece, rest: seq<Piece>, k: nat)
    requires run.Run? && pos + k <= |t| && run.min <= k
    requires MatchAt(t, pos + k, rest).Some? && MatchAt(a + t, |a| + pos + k, rest) == MatchAt(t, pos + k, rest)
    ensures TryRun(a + t, |a| + pos, run, rest, k) == TryRun(t, pos, run, rest, k)
  {
    assert (a + t)[|a| + pos..|a| + pos + k] == t[pos..pos + k];
    TryRunFoundPair(a + t, |a| + pos, t, pos, run, rest, k);
  }

  /** Two texts with the same run of `k` characters, after which the rest matches alike, try that run alike. */
  lemma TryRunFoundPair(s1: string, p1: nat, s2: string, p2: nat, run: Piece, rest: seq<Piece>, k: nat)
    requires run.Run? && p1 + k <= |s1| && p2 + k <= |s2| && run.min <= k
    requires s1[p1..p1 + k] == s2[p2..p2 + k]
    requires MatchAt(s2, p2 + k, rest).Some? && MatchAt(s1, p1 + k, rest) == MatchAt(s2, p2 + k, rest)
    ensures TryRun(s1, p1, run, rest, k) == TryRun(s2, p2, run, rest, k)
  {
    TryRunHit(s1, p1, run, rest, k);
    TryRunHit(s2, p2, run, rest, k);
  }

  lemma TryRunShiftBack(a: string, t: string, pos: nat, run: Piece, rest: seq<Piece>, k: nat)
    requires run.Run? && pos + k <= |t| && run.min <= k && k > 0
    requires MatchAt(t, pos + k, rest).None? && MatchAt(a + t, |a| + pos + k, rest).None?
    requires TryRun(a + t, |a| + pos, run, rest, k - 1) == TryRun(t, pos, run, rest, k - 1)
    ensures TryRun(a + t, |a| + pos, run, rest, k) == TryRun(t, pos, run, rest, k)
  {
    TryRunBackPair(a + t, |a| + pos, t, pos, run, rest, k);
  }

  /** Two texts on which a run of `k` characters fails alike, and shorter runs agree, agree on the run of `k`. */
  lemma TryRunBackPair(s1: string, p1: nat, s2: string, p2: nat, run: Piece, rest: seq<Piece>, k: nat)
    requires run.Run? && p1 + k <= |s1| && p2 + k <= |s2| && run.min <= k && k > 0
    requires MatchAt(s1, p1 + k, rest).None? && MatchAt(s2, p2 + k, rest).None?
    requires TryRun(s1, p1, run, rest, k - 1) == TryRun(s2, p2, run, rest, k - 1)
    ensures TryRun(s1, p1, run, rest, k) == TryRun(s2, p2, run, rest, k)
  {
    TryRunMiss(s1, p1, run, rest, k);
    TryRunMiss(s2, p2, run, rest, k);
  }

  // ---- Single steps of the matcher ----

  /** The run of `k` characters at `pos` is exactly `n` long when `n` such characters are followed by the end or by another character. */
  lemma {:induction false} RunLengthIs(s: string, pos: nat, k: CharClass, n: nat)
    requires pos + n <= |s| && AllIn(s, pos, pos + n, k)
    requires pos + n == |s| || !InClass(s[pos + n], k)
    ensures RunLength(s, pos, k) == n
    decreases n
  {
    if n > 0 {
      RunLengthIs(s, pos + 1, k, n - 1);
    }
  }

  /** Backtracking past lengths after which the rest of the pattern cannot match gives the result of the longest length that remains. */
  lemma {:induction false} TryRunSkip(s: string, pos: nat, run: Piece, rest: seq<Piece>, k: nat, e: nat)
    requires run.Run? && pos + k <= |s| && run.min <= e <= k
    requires forall q :: pos + e < q <= pos + k ==> MatchAt(s, q, rest).None?
    ensures TryRun(s, pos, run, rest, k) == TryRun(s, pos, run, rest, e)
    decreases k
  {
    if k > e {
      TryRunSkip(s, pos, run, rest, k - 1, e);
    }
  }

  lemma MatchAtLit(s: string, pos: nat, t: string, rest: seq<Piece>)
    requires pos <= |s|
    ensures MatchAt(s, pos, [Lit(t)] + rest) == if LitAt(s, pos, t) then MatchAt(s, pos + |t|, rest) else None
  {
    var ps := [Lit(t)] + rest;
    assert ps[0] == Lit(t) && ps[1..] == rest;
    LitHead(s, pos, ps);
  }

  /** The matcher at a literal: the literal there, then the rest of the pattern. */
  lemma LitHead(s: string, pos: nat, ps: seq<Piece>)
    requires pos <= |s| && ps != [] && ps[0].Lit?
    ensures MatchAt(s, pos, ps) == if LitAt(s, pos, ps[0].text) then MatchAt(s, pos + |ps[0].text|, ps[1..]) else None
  {
  }

  lemma MatchAtRun(s: string, pos: nat, run: Piece, rest: seq<Piece>)
    requires pos <= |s| && run.Run?
    ensures MatchAt(s, pos, [run] + rest) == TryRun(s, pos, run, rest, RunLength(s, pos, run.cls))
  {
    var ps := [run] + rest;
    assert ps[0] == run && ps[1..] == rest;
    RunHead(s, pos, ps);
  }

  /** The matcher at a run: the longest run there, then shorter ones. */
  lemma RunHead(s: string, pos: nat, ps: seq<Piece>)
    requires pos <= |s| && ps != [] && ps[0].Run?
    ensures MatchAt(s, pos, ps) == TryRun(s, pos, ps[0], ps[1..], RunLength(s, pos, ps[0].cls))
  {
  }

  /** A run of `k` characters after which the rest of the pattern matches gives that match. */
  lemma TryRunHit(s: string, pos: nat, run: Piece, rest: seq<Piece>, k: nat)
    requires run.Run? && pos + k <= |s| && run.min <= k
    requires MatchAt(s, pos + k, rest).Some?
    ensures TryRun(s, pos, run, rest, k) == Some((if run.capture then [s[pos..pos + k]] else []) + MatchAt(s, pos + k, rest).value)
  {
    if !run.capture {
      assert [] + MatchAt(s, pos + k, rest).value == MatchAt(s, pos + k, rest).value;
    }
  }

  /** A run of `k` characters after which the rest of the pattern does not match gives way to a shorter one. */
  lemma TryRunMiss(s: string, pos: nat, run: Piece, rest: seq<Piece>, k: nat)
    requires run.Run? && pos + k <= |s| && run.min <= k && k > 0
    requires MatchAt(s, pos + k, rest).None?
    ensures TryRun(s, pos, run, rest, k) == TryRun(s, pos, run, rest, k - 1)
  {
  }

  /**
    A run that takes every character of its class it can, and after which the
    rest of the pattern matches, gives that match, with its own text in front
    when it is a group.
   */
  lemma GreedyRun(s: string, pos: nat, run: Piece, rest: seq<Piece>, n: nat)
    requires run.Run? && run.min <= n && pos + n <= |s| && AllIn(s, pos, pos + n, run.cls)
    requires pos + n == |s| || !InClass(s[pos + n], run.cls)
    requires MatchAt(s, pos + n, rest).Some?
    ensures MatchAt(s, pos, [run] + rest)
            == Some((if run.capture then [s[pos..pos + n]] else []) + MatchAt(s, pos + n, rest).value)
  {
    MatchAtRun(s, pos, run, rest);
    RunLengthIs(s, pos, run.cls, n);
    TryRunHit(s, pos, run, rest, n);
  }

  // ---- Fields and gaps ----

  /** `key\s*(k+)` at a caption, one blank and a value of class `k`, then the rest of the pattern. */
  lemma FieldThen(s: string, pos: nat, key: string, k: CharClass, v: string, rest: seq<Piece>, caps: seq<string>)
    requires LitAt(s, pos, key)
    requires pos + |key| + 1 + |v| <= |s| && s[pos + |key|] == ' '
    requires s[pos + |key| + 1..pos + |key| + 1 + |v|] == v && v != [] && OfClass(v, k) && !IsSpace(v[0])
    requires pos + |key| + 1 + |v| == |s| || !InClass(s[pos + |key| + 1 + |v|], k)
    requires MatchAt(s, pos + |key| + 1 + |v|, rest) == Some(caps)
    ensures MatchAt(s, pos, Field(key, k) + rest) == Some([v] + caps)
  {
    var e := pos + |key| + 1;
    var sp, run := Run(SpaceClass, 0, false), Run(k, 1, true);
    FieldSplit(key, k, rest);
    ValueThen(s, e, k, v, rest, caps);
    BlankThen(s, e - 1, [run] + rest, [v] + caps);
    MatchAtLit(s, pos, key, [sp] + ([run] + rest));
  }

  lemma FieldSplit(key: string, k: CharClass, rest: seq<Piece>)
    ensures Field(key, k) + rest == [Lit(key)] + ([Run(SpaceClass, 0, false)] + ([Run(k, 1, true)] + rest))
  {
  }

  /** `(k+)` at a value of class `k` that the rest of the pattern follows. */
  lemma ValueThen(s: string, e: nat, k: CharClass, v: string, rest: seq<Piece>, caps: seq<string>)
    requires e + |v| <= |s| && s[e..e + |v|] == v && v != [] && OfClass(v, k)
    requires e + |v| == |s| || !InClass(s[e + |v|], k)
    requires MatchAt(s, e + |v|, rest) == Some(caps)
    ensures MatchAt(s, e, [Run(k, 1, true)] + rest) == Some([v] + caps)
  {
    assert AllIn(s, e, e + |v|, k) by {
      forall m | e <= m < e + |v| ensures InClass(s[m], k) {
        assert s[m] == v[m - e];
      }
    }
    GreedyRun(s, e, Run(k, 1, true), rest, |v|);
  }

  /** `\s*` at a single blank that the rest of the pattern follows. */
  lemma BlankThen(s: string, b: nat, rest: seq<Piece>, caps: seq<string>)
    requires b + 1 < |s| && s[b] == ' ' && !IsSpace(s[b + 1])
    requires MatchAt(s, b + 1, rest) == Some(caps)
    ensures MatchAt(s, b, [Run(SpaceClass, 0, false)] + rest) == Some(caps)
  {
    GreedyRun(s, b, Run(SpaceClass, 0, false), rest, 1);
    assert [] + caps == caps;
  }

  /** `.*` followed by a pattern that starts with `key`: the run backs off to the last place `key` starts. */
  lemma GapThen(s: string, pos: nat, j: nat, key: string, rest: seq<Piece>, caps: seq<string>)
    requires pos <= j <= |s| && AllIn(s, pos, |s|, DotClass)
    requires MatchAt(s, j, [Lit(key)] + rest) == Some(caps)
    requires NoKeyFrom(s, key, j + 1)
    ensures MatchAt(s, pos, Gap + ([Lit(key)] + rest)) == Some(caps)
  {
    var gap := Run(DotClass, 0, false);
    var after := [Lit(key)] + rest;
    assert Gap + after == [gap] + after;
    assert MatchAt(s, pos, [gap] + after) == TryRun(s, pos, gap, after, |s| - pos) by {
      RunLengthIs(s, pos, DotClass, |s| - pos);
      MatchAtRun(s, pos, gap, after);
    }
    assert TryRun(s, pos, gap, after, |s| - pos) == TryRun(s, pos, gap, after, j - pos) by {
      NoLaterMatch(s, j, key, rest);
      TryRunSkip(s, pos, gap, after, |s| - pos, j - pos);
    }
    assert TryRun(s, pos, gap, after, j - pos) == Some(caps) by {
      TryRunHit(s, pos, gap, after, j - pos);
      assert [] + caps == caps;
    }
  }

  lemma NoLaterMatch(s: string, j: nat, key: string, rest: seq<Piece>)
    requires j <= |s| && NoKeyFrom(s, key, j + 1)
    ensures forall q :: j < q <= |s| ==> MatchAt(s, q, [Lit(key)] + rest).None?
  {
    forall q | j < q <= |s| ensures MatchAt(s, q, [Lit(key)] + rest).None? {
      MatchAtLit(s, q, key, rest);
    }
  }

  /** A field that ends the listing, followed by `tail` (nothing, or `$`). */
  lemma LastField(caption: string, k: CharClass, v: string, tail: seq<Piece>)
    requires v != [] && OfClass(v, k) && !IsSpace(v[0])
    requires tail == [] || tail == [End]
    ensures MatchAt(FieldLine(caption, v), 0, Field(ToLower(caption), k) + tail) == Some([v])
  {
    var s := FieldLine(caption, v);
    LabelAt(caption, " " + v);
    assert s[|caption|..] == " " + v;
    assert MatchAt(s, |s|, tail) == Some([]);
    FieldThen(s, 0, ToLower(caption), k, v, tail, []);
    assert [v] + [] == [v];
  }

  lemma LabelAt(caption: string, rest: string)
    ensures LitAt(caption + rest, 0, ToLower(caption))
  {
    assert (caption + rest)[0..|caption|] == caption;
  }

  /** A field, a blank, and a text `t` where the rest of the pattern matches from its start and its key occurs nowhere later. */
  lemma FieldGapThen(caption: string, k: CharClass, v: string, t: string, key: string, rest: seq<Piece>, caps: seq<string>)
    requires v != [] && OfClass(v, k) && !IsSpace(v[0]) && !InClass(' ', k)
    requires OfClass(t, DotClass) && NoBoundary(rest)
    requires MatchAt(t, 0, [Lit(key)] + rest) == Some(caps)
    requires NoKeyFrom(t, key, 1)
    ensures MatchAt(FieldLine(caption, v) + " " + t, 0, FieldGap(ToLower(caption), k) + ([Lit(key)] + rest))
            == Some([v] + caps)
  {
    var a := FieldLine(caption, v) + " ";
    var after := [Lit(key)] + rest;
    var key0 := ToLower(caption);
    assert MatchAt(a + t, |key0| + 1 + |v|, Gap + after) == Some(caps) by {
      GapToText(a, t, key, rest, caps);
      assert |key0| == |caption| && |a| - 1 == |key0| + 1 + |v|;
    }
    assert MatchAt(a + t, 0, Field(key0, k) + (Gap + after)) == Some([v] + caps) by {
      FieldSlices(caption, v, t);
      FieldThen(a + t, 0, key0, k, v, Gap + after, caps);
    }
    FieldGapSplit(key0, k, after);
  }

  lemma FieldSlices(caption: string, v: string, t: string)
    ensures var s := FieldLine(caption, v) + " " + t;
      && |s| == |caption| + 2 + |v| + |t| && LitAt(s, 0, ToLower(caption))
      && s[|caption|] == ' ' && s[|caption| + 1..|caption| + 1 + |v|] == v && s[|caption| + 1 + |v|] == ' '
  {
    var s := FieldLine(caption, v) + " " + t;
    LabelAt(caption, " " + v + " " + t);
    assert s == caption + (" " + v + " " + t);
  }

  lemma FieldGapSplit(key: string, k: CharClass, after: seq<Piece>)
    ensures FieldGap(key, k) + after == Field(key, k) + (Gap + after)
  {
  }

  /** `.*` at the blank in front of a text `t` where the rest of the pattern matches from its start and its key occurs nowhere later. */
  lemma GapToText(a: string, t: string, key: string, rest: seq<Piece>, caps: seq<string>)
    requires a != [] && a[|a| - 1] == ' ' && OfClass(t, DotClass) && NoBoundary(rest)
    requires MatchAt(t, 0, [Lit(key)] + rest) == Some(caps)
    requires NoKeyFrom(t, key, 1)
    ensures MatchAt(a + t, |a| - 1, Gap + ([Lit(key)] + rest)) == Some(caps)
  {
    var after := [Lit(key)] + rest;
    assert NoBoundary(after);
    MatchAtShift(a, t, 0, after);
    NoKeyShift(a, t, key);
    BlankDots(a, t);
    GapThen(a + t, |a| - 1, |a|, key, rest, caps);
  }

  lemma NoKeyShift(a: string, t: string, key: string)
    requires NoKeyFrom(t, key, 1)
    ensures NoKeyFrom(a + t, key, |a| + 1)
  {
    forall q | |a| + 1 <= q <= |a + t| ensures !LitAt(a + t, q, key) {
      LitAtShift(a, t, q - |a|, key);
    }
  }

  lemma BlankDots(a: string, t: string)
    requires a != [] && a[|a| - 1] == ' ' && OfClass(t, DotClass)
    ensures AllIn(a + t, |a| - 1, |a + t|, DotClass)
  {
    forall m | |a| - 1 <= m < |a + t| ensures InClass((a + t)[m], DotClass) {
      if m >= |a| {
        assert (a + t)[m] == t[m - |a|];
      }
    }
  }

  // ---- Where a key cannot start ----

  /** A key without blanks cannot start across the blank that joins two texts. */
  lemma NoKeyJoin(x: string, y: string, key: string, from: nat)
    requires forall i :: 0 <= i < |key| ==> key[i] != ' '
    requires NoKeyFrom(x, key, from) && NoKeyFrom(y, key, 0)
    ensures NoKeyFrom(x + " " + y, key, from)
  {
    var s := x + " " + y;
    var m := |key|;
    forall q | from <= q <= |s| ensures !LitAt(s, q, key) {
      if q + m <= |s| {
        if q + m <= |x| {
          assert s[q..q + m] == x[q..q + m];
          assert !LitAt(x, q, key);
        } else if q > |x| {
          assert s[q..q + m] == y[q - |x| - 1..q - |x| - 1 + m];
          assert !LitAt(y, q - |x| - 1, key);
        } else {
          assert s[q..q + m][|x| - q] == s[|x|] == ' ';
          assert ToLower(s[q..q + m])[|x| - q] == ' ' != key[|x| - q];
        }
      }
    }
  }

  /** A text without a colon holds no key that ends in one. */
  lemma NoKeyNoColon(w: string, key: string)
    requires key != [] && key[|key| - 1] == ':' && ':' !in w
    ensures NoKeyFrom(w, key, 0)
  {
    forall q | 0 <= q <= |w| ensures !LitAt(w, q, key) {
      if q + |key| <= |w| {
        assert w[q..q + |key|][|key| - 1] == w[q + |key| - 1];
        assert ToLower(w[q..q + |key|])[|key| - 1] == LowerChar(w[q + |key| - 1]);
      }
    }
  }

  /**
    A caption whose only colon is its last character holds a key that ends in
    a colon, from `from` on, only as its own tail.
   */
  lemma NoKeyCaption(w: string, key: string, from: nat)
    requires key != [] && key[|key| - 1] == ':' && w != [] && ':' !in w[..|w| - 1]
    requires from + |key| <= |w| ==> ToLower(w[|w| - |key|..]) != key
    ensures NoKeyFrom(w, key, from)
  {
    forall q | from <= q <= |w| ensures !LitAt(w, q, key) {
      if q + |key| < |w| {
        assert w[q..q + |key|][|key| - 1] == w[..|w| - 1][q + |key| - 1];
        assert ToLower(w[q..q + |key|])[|key| - 1] == LowerChar(w[q + |key| - 1]);
      } else if q + |key| == |w| {
        assert w[q..q + |key|] == w[|w| - |key|..];
      }
    }
  }

  /** A field holds no key from `from` on when its caption does not and its value has no colon. */
  lemma NoKeyField(caption: string, v: string, key: string, from: nat)
    requires key != [] && key[|key| - 1] == ':' && forall i :: 0 <= i < |key| ==> key[i] != ' '
    requires caption != [] && ':' !in caption[..|caption| - 1] && ':' !in v
    requires from + |key| <= |caption| ==> ToLower(caption[|caption| - |key|..]) != key
    ensures NoKeyFrom(FieldLine(caption, v), key, from)
  {
    NoKeyCaption(caption, key, from);
    NoKeyNoColon(v, key);
    NoKeyJoin(caption, v, key, from);
  }

  lemma DotsJoin(x: string, y: string)
    requires OfClass(x, DotClass) && OfClass(y, DotClass)
    ensures OfClass(x + " " + y, DotClass)
  {
    assert forall i :: 0 <= i < |x| ==> (x + " " + y)[i] == x[i];
    assert forall i :: |x| < i < |x| + 1 + |y| ==> (x + " " + y)[i] == y[i - |x| - 1];
  }

  // ---- Values ----

  /** A caption: a word and its colon. */
  lemma CaptionFacts(caption: string)
    requires caption != [] && caption[|caption| - 1] == ':'
    requires forall i :: 0 <= i < |caption| - 1 ==> IsAlnum(caption[i])
    ensures OfClass(caption, DotClass) && ':' !in caption[..|caption| - 1]
  {
  }

  /** A field whose value is of class `k` and whose text holds no line terminator. */
  lemma FieldDots(caption: string, v: string)
    requires caption != [] && caption[|caption| - 1] == ':'
    requires forall i :: 0 <= i < |caption| - 1 ==> IsAlnum(caption[i])
    requires OfClass(v, DotClass)
    ensures OfClass(FieldLine(caption, v), DotClass)
  {
    CaptionFacts(caption);
    DotsJoin(caption, v);
  }

  /** A caption: a word and its colon. */
  predicate IsCaption(caption: string) {
    caption != [] && caption[|caption| - 1] == ':' && forall i :: 0 <= i < |caption| - 1 ==> IsAlnum(caption[i])
  }

  /** A key: lower case, no blanks, and a colon at its end. */
  lemma CaptionKey(caption: string)
    requires IsCaption(caption)
    ensures var key := ToLower(caption);
      && |key| == |caption| && key != [] && key[|key| - 1] == ':' && forall i :: 0 <= i < |key| ==> key[i] != ' '
  {
  }

  /** The text of a field holds its own key nowhere after its start, and no line terminator. */
  lemma FieldAlone(caption: string, v: string)
    requires IsCaption(caption) && OfClass(v, DotClass) && ':' !in v
    ensures NoKeyFrom(FieldLine(caption, v), ToLower(caption), 1) && OfClass(FieldLine(caption, v), DotClass)
  {
    CaptionKey(caption);
    CaptionFacts(caption);
    NoKeyField(caption, v, ToLower(caption), 1);
    DotsJoin(caption, v);
  }

  /** A value of class `k` the way a listing shows it: not empty, on one line, no leading blank, no colon. */
  predicate Value(v: string, k: CharClass) {
    v != [] && OfClass(v, k) && OfClass(v, DotClass) && !IsSpace(v[0]) && ':' !in v
  }

  /**
    The pattern `[Lit(key)] + rest` matches `t` from its start with captures
    `caps`, `key` occurs nowhere later in `t`, and `t` is a single line.
   */
  predicate Chain(t: string, key: string, rest: seq<Piece>, caps: seq<string>) {
    && OfClass(t, DotClass) && NoBoundary(rest) && NoKeyFrom(t, key, 1)
    && MatchAt(t, 0, [Lit(key)] + rest) == Some(caps)
  }

  /** What follows the key of a field. */
  function FieldRest(k: CharClass): seq<Piece> {
    [Run(SpaceClass, 0, false), Run(k, 1, true)]
  }

  /** The last field of a listing, then the end of the pattern (nothing, or `$`). */
  lemma LastFieldFacts(caption: string, k: CharClass, v: string, tail: seq<Piece>)
    requires IsCaption(caption) && Value(v, k) && (tail == [] || tail == [End])
    ensures Chain(FieldLine(caption, v), ToLower(caption), FieldRest(k) + tail, [v])
  {
    LastField(caption, k, v, tail);
    assert Field(ToLower(caption), k) + tail == [Lit(ToLower(caption))] + (FieldRest(k) + tail);
    FieldAlone(caption, v);
  }

  /** A field that another field follows. */
  lemma MidFieldFacts(caption: string, k: CharClass, v: string, t: string, key: string, rest: seq<Piece>, caps: seq<string>)
    requires IsCaption(caption) && Value(v, k) && !InClass(' ', k)
    requires Chain(t, key, rest, caps) && NoKeyFrom(t, ToLower(caption), 0)
    ensures Chain(FieldLine(caption, v) + " " + t, ToLower(caption), FieldRest(k) + (Gap + ([Lit(key)] + rest)), [v] + caps)
  {
    FieldGapThen(caption, k, v, t, key, rest, caps);
    FieldGapHead(ToLower(caption), k, [Lit(key)] + rest);
    MidFieldText(caption, v, t);
    FieldNoBoundary(k, key, rest);
  }

  lemma FieldNoBoundary(k: CharClass, key: string, rest: seq<Piece>)
    requires NoBoundary(rest)
    ensures NoBoundary(FieldRest(k) + (Gap + ([Lit(key)] + rest)))
  {
    var ps := FieldRest(k) + (Gap + ([Lit(key)] + rest));
    forall i | 0 <= i < |ps| ensures !ps[i].WordBoundary? {
      if i >= 4 {
        assert ps[i] == rest[i - 4];
      }
    }
  }

  /** The captures of consecutive fields, in listing order. */
  lemma Captures2(a: string, b: string)
    ensures [a] + [b] == [a, b]
  {
  }

  lemma Captures3(a: string, b: string, c: string)
    ensures [a] + ([b] + [c]) == [a, b, c]
  {
  }

  lemma Captures4(a: string, b: string, c: string, d: string)
    ensures [a] + ([b] + ([c] + [d])) == [a, b, c, d]
  {
  }

  /** The first field of a listing, with the rest of the listing after it. */
  lemma FirstField(caption: string, k: CharClass, v: string, t: string, key: string, rest: seq<Piece>, caps: seq<string>)
    requires Value(v, k) && !InClass(' ', k) && Chain(t, key, rest, caps)
    ensures MatchAt(FieldLine(caption, v) + " " + t, 0, FieldGap(ToLower(caption), k) + ([Lit(key)] + rest)) == Some([v] + caps)
  {
    FieldGapThen(caption, k, v, t, key, rest, caps);
  }

  lemma FieldGapHead(key: string, k: CharClass, after: seq<Piece>)
    ensures FieldGap(key, k) + after == [Lit(key)] + (FieldRest(k) + (Gap + after))
  {
  }

  lemma MidFieldText(caption: string, v: string, t: string)
    requires IsCaption(caption) && OfClass(v, DotClass) && ':' !in v
    requires OfClass(t, DotClass) && NoKeyFrom(t, ToLower(caption), 0)
    ensures var s := FieldLine(caption, v) + " " + t;
      NoKeyFrom(s, ToLower(caption), 1) && OfClass(s, DotClass)
  {
    FieldAlone(caption, v);
    CaptionKey(caption);
    NoKeyJoin(FieldLine(caption, v), t, ToLower(caption), 1);
    DotsJoin(FieldLine(caption, v), t);
  }

  lemma DigitsValue(v: string)
    requires IsDigits(v)
    ensures Value(v, DigitClass)
  {
  }

  lemma TokenValue(v: string)
    requires IsToken(v) && ':' !in v
    ensures Value(v, NonSpaceClass)
  {
  }

  lemma AlnumValue(v: string)
    requires IsAlnumText(v)
    ensures Value(v, AlnumClass)
  {
  }

  lemma TextValue(v: string)
    requires v != [] && !IsSpace(v[0]) && NoLineTerminator(v) && ':' !in v
    ensures Value(v, DotClass)
  {
  }

  // ---- The three listings ----

  /** `/Priority:\s*(\d+).*Destination:\s*([^\s]+)/i` matches an MX listing at its start, capturing its two values. */
  lemma MxListingAt(priority: string, destination: string)
    requires IsDigits(priority) && IsToken(destination) && ':' !in destination
    ensures MatchAt(MxListing(priority, destination), 0, MxPattern) == Some([priority, destination])
  {
    TokenValue(destination);
    MxCaptions();
    LastFieldFacts("Destination:", NonSpaceClass, destination, []);
    DigitsValue(priority);
    FirstField("Priority:", DigitClass, priority, FieldLine("Destination:", destination), ToLower("Destination:"),
      FieldRest(NonSpaceClass) + [], [destination]);
    MxShape();
    Captures2(priority, destination);
  }

  lemma MxCaptions()
    ensures IsCaption("Destination:")
  {
  }

  lemma MxShape()
    ensures MxPattern == FieldGap(ToLower("Priority:"), DigitClass) + ([Lit(ToLower("Destination:"))] + (FieldRest(NonSpaceClass) + []))
  {
    assert ToLower("Priority:") == "priority:";
    assert ToLower("Destination:") == "destination:";
  }

  /** `/Priority:\s*(\d+).*Weight:\s*(\d+).*Port:\s*(\d+).*Target:\s*([^\s]+)/i` matches an SRV listing at its start, capturing its four values. */
  lemma SrvListingAt(priority: string, weight: string, port: string, target: string)
    requires IsDigits(priority) && IsDigits(weight) && IsDigits(port) && IsToken(target) && ':' !in target
    ensures MatchAt(SrvListing(priority, weight, port, target), 0, SrvPattern) == Some([priority, weight, port, target])
  {
    SrvFrom(weight, port, target);
    DigitsValue(priority);
    FirstField("Priority:", DigitClass, priority,
      FieldLine("Weight:", weight) + " " + (FieldLine("Port:", port) + " " + FieldLine("Target:", target)),
      ToLower("Weight:"), SrvRest1(), [weight] + ([port] + [target]));
    SrvShape();
    Captures4(priority, weight, port, target);
  }

  /** The SRV pattern from `Weight:` on, on the listing from its weight field on. */
  lemma SrvFrom(weight: string, port: string, target: string)
    requires IsDigits(weight) && IsDigits(port) && IsToken(target) && ':' !in target
    ensures Chain(FieldLine("Weight:", weight) + " " + (FieldLine("Port:", port) + " " + FieldLine("Target:", target)),
      ToLower("Weight:"), SrvRest1(), [weight] + ([port] + [target]))
  {
    SrvFromPort(port, target);
    DigitsValue(weight);
    SrvCaptions();
    SrvNoWeight(port, target);
    MidFieldFacts("Weight:", DigitClass, weight, FieldLine("Port:", port) + " " + FieldLine("Target:", target),
      ToLower("Port:"), SrvRest2(), [port] + [target]);
  }

  /** The SRV pattern from `Port:` on, on the listing from its port field on. */
  lemma SrvFromPort(port: string, target: string)
    requires IsDigits(port) && IsToken(target) && ':' !in target
    ensures Chain(FieldLine("Port:", port) + " " + FieldLine("Target:", target), ToLower("Port:"), SrvRest2(), [port] + [target])
  {
    TokenValue(target);
    SrvCaptions();
    LastFieldFacts("Target:", NonSpaceClass, target, []);
    DigitsValue(port);
    assert "Target:"[2..] == "rget:"; assert ToLower("rget:") == "rget:"; assert ToLower("Port:") == "port:";
    NoKeyField("Target:", target, "port:", 0);
    MidFieldFacts("Port:", DigitClass, port, FieldLine("Target:", target), ToLower("Target:"), SrvRest3(), [target]);
  }

  function SrvRest3(): seq<Piece> { FieldRest(NonSpaceClass) + [] }
  function SrvRest2(): seq<Piece> { FieldRest(DigitClass) + (Gap + ([Lit(ToLower("Target:"))] + SrvRest3())) }
  function SrvRest1(): seq<Piece> { FieldRest(DigitClass) + (Gap + ([Lit(ToLower("Port:"))] + SrvRest2())) }

  lemma SrvCaptions()
    ensures IsCaption("Weight:") && IsCaption("Port:") && IsCaption("Target:")
  {
  }

  lemma SrvShape()
    ensures SrvPattern == FieldGap(ToLower("Priority:"), DigitClass) + ([Lit(ToLower("Weight:"))] + SrvRest1())
  {
    assert ToLower("Priority:") == "priority:";
    assert ToLower("Target:") == "target:" && ToLower("Port:") == "port:" && ToLower("Weight:") == "weight:";
  }

  /** No caption after the weight of an SRV listing ends in `weight:`. */
  lemma SrvNoWeight(port: string, target: string)
    requires ':' !in port && ':' !in target
    ensures NoKeyFrom(FieldLine("Port:", port) + " " + FieldLine("Target:", target), ToLower("Weight:"), 0)
  {
    assert ToLower("Weight:") == "weight:";
    assert ToLower("Target:") == "target:";
    NoKeyField("Target:", target, "weight:", 0);
    NoKeyField("Port:", port, "weight:", 0);
    NoKeyJoin(FieldLine("Port:", port), FieldLine("Target:", target), "weight:", 0);
  }

  /** `/Flag:\s*(\d+).*Tag:\s*([A-Za-z0-9]+).*Value:\s*(.+)$/i` matches a CAA listing at its start, capturing its three values. */
  lemma CaaListingAt(flag: string, tag: string, value: string)
    requires IsDigits(flag) && IsAlnumText(tag)
    requires value != [] && !IsSpace(value[0]) && NoLineTerminator(value) && ':' !in value
    ensures MatchAt(CaaListing(flag, tag, value), 0, CaaPattern) == Some([flag, tag, value])
  {
    CaaFrom(tag, value);
    DigitsValue(flag);
    FirstField("Flag:", DigitClass, flag, FieldLine("Tag:", tag) + " " + FieldLine("Value:", value),
      ToLower("Tag:"), CaaRest1(), [tag] + [value]);
    CaaShape();
    Captures3(flag, tag, value);
  }

  /** The CAA pattern from `Tag:` on, on the listing from its tag field on. */
  lemma CaaFrom(tag: string, value: string)
    requires IsAlnumText(tag)
    requires value != [] && !IsSpace(value[0]) && NoLineTerminator(value) && ':' !in value
    ensures Chain(FieldLine("Tag:", tag) + " " + FieldLine("Value:", value), ToLower("Tag:"), CaaRest1(), [tag] + [value])
  {
    TextValue(value);
    CaaCaptions();
    LastFieldFacts("Value:", DotClass, value, [End]);
    AlnumValue(tag);
    assert "Value:"[2..] == "lue:"; assert ToLower("lue:") == "lue:"; assert ToLower("Tag:") == "tag:";
    NoKeyField("Value:", value, "tag:", 0);
    MidFieldFacts("Tag:", AlnumClass, tag, FieldLine("Value:", value), ToLower("Value:"), CaaRest2(), [value]);
  }

  function CaaRest2(): seq<Piece> { FieldRest(DotClass) + [End] }
  function CaaRest1(): seq<Piece> { FieldRest(AlnumClass) + (Gap + ([Lit(ToLower("Value:"))] + CaaRest2())) }

  lemma CaaCaptions()
    ensures IsCaption("Tag:") && IsCaption("Value:")
  {
  }

  lemma CaaShape()
    ensures CaaPattern == FieldGap(ToLower("Flag:"), DigitClass) + ([Lit(ToLower("Tag:"))] + CaaRest1())
  {
    assert ToLower("Flag:") == "flag:";
    assert ToLower("Value:") == "value:" && ToLower("Tag:") == "tag:";
  }

  // ---- What the importer reads from a listing ----

  lemma MxAtStart(s: string, caps: seq<string>)
    requires MatchAt(s, 0, MxPattern) == Some(caps) && |caps| == 2
    ensures MatchMx(s) == Some((caps[0], caps[1]))
  {
    assert SearchFrom(s, MxPattern, 0) == Some(caps);
  }

  lemma SrvAtStart(s: string, caps: seq<string>)
    requires MatchAt(s, 0, SrvPattern) == Some(caps) && |caps| == 4
    ensures MatchSrv(s) == Some((caps[0], caps[1], caps[2], caps[3]))
  {
    assert SearchFrom(s, SrvPattern, 0) == Some(caps);
  }

  lemma CaaAtStart(s: string, caps: seq<string>)
    requires MatchAt(s, 0, CaaPattern) == Some(caps) && |caps| == 3
    ensures MatchCaa(s) == Some((caps[0], caps[1], caps[2]))
  {
    assert SearchFrom(s, CaaPattern, 0) == Some(caps);
  }

  /** The MX pattern reads back the priority and the destination of every MX listing. */
  lemma MatchMxListing(priority: string, destination: string)
    requires IsDigits(priority) && IsToken(destination) && ':' !in destination
    ensures MatchMx(MxListing(priority, destination)) == Some((priority, destination))
  {
    MxListingAt(priority, destination);
    MxAtStart(MxListing(priority, destination), [priority, destination]);
  }

  /** The SRV pattern reads back the four values of every SRV listing. */
  lemma MatchSrvListing(priority: string, weight: string, port: string, target: string)
    requires IsDigits(priority) && IsDigits(weight) && IsDigits(port) && IsToken(target) && ':' !in target
    ensures MatchSrv(SrvListing(priority, weight, port, target)) == Some((priority, weight, port, target))
  {
    SrvListingAt(priority, weight, port, target);
    SrvAtStart(SrvListing(priority, weight, port, target), [priority, weight, port, target]);
  }

  /** The CAA pattern reads back the flag, the tag and the value of every CAA listing. */
  lemma MatchCaaListing(flag: string, tag: string, value: string)
    requires IsDigits(flag) && IsAlnumText(tag)
    requires value != [] && !IsSpace(value[0]) && NoLineTerminator(value) && ':' !in value
    ensures MatchCaa(CaaListing(flag, tag, value)) == Some((flag, tag, value))
  {
    CaaListingAt(flag, tag, value);
    CaaAtStart(CaaListing(flag, tag, value), [flag, tag, value]);
  }
}
