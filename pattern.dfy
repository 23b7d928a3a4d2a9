/**
  The handful of fixed regular expressions the importer uses, each written as
  a sequence of pieces and run by a small backtracking matcher that tries
  greedy runs longest-first and search positions left to right, as
  JavaScript's `String.prototype.match` does for these patterns.
 */
module Pattern {
  import opened Wrappers
  import opened Text

  datatype CharClass = DigitClass | SpaceClass | NonSpaceClass | DotClass | AlnumClass | WordClass

  /** `\d`, `\s`, `[^\s]`, `.`, `[A-Za-z0-9]`, `\w`. */
  predicate InClass(c: char, k: CharClass) {
    match k
    case DigitClass => IsDigit(c)
    case SpaceClass => IsSpace(c)
    case NonSpaceClass => !IsSpace(c)
    case DotClass => !IsLineTerminator(c)
    case AlnumClass => IsAlnum(c)
    case WordClass => IsWordChar(c)
  }

  /** One element of a pattern. */
  datatype Piece =
    | Lit(text: string)                             // matched ignoring ASCII case; `text` is lower case
    | Run(cls: CharClass, min: nat, capture: bool)  // greedy `cls*` (min 0) or `cls+` (min 1), a group when `capture`
    | WordBoundary                                  // `\b`
    | End                                           // `$`

  /** Length of the longest run of `k` characters starting at `pos`. */
  function RunLength(s: string, pos: nat, k: CharClass): (n: nat)
    requires pos <= |s|
    ensures pos + n <= |s|
    ensures pos + n == |s| || !InClass(s[pos + n], k)
    decreases |s| - pos
  {
    if pos < |s| && InClass(s[pos], k) then 1 + RunLength(s, pos + 1, k) else 0
  }

  /** Every character of the run `RunLength` measures is of its class. */
  lemma {:induction false} RunLengthClass(s: string, pos: nat, k: CharClass)
    requires pos <= |s|
    ensures forall j :: pos <= j < pos + RunLength(s, pos, k) ==> InClass(s[j], k)
    decreases |s| - pos
  {
    if pos < |s| && InClass(s[pos], k) {
      RunLengthClass(s, pos + 1, k);
    }
  }

  predicate LitAt(s: string, pos: nat, t: string) {
    pos + |t| <= |s| && ToLower(s[pos..pos + |t|]) == t
  }

  predicate BoundaryAt(s: string, pos: nat)
    requires pos <= |s|
  {
    (pos > 0 && IsWordChar(s[pos - 1])) != (pos < |s| && IsWordChar(s[pos]))
  }

  /** The capture groups of a pattern, in order. */
  function Groups(ps: seq<Piece>): (gs: seq<Piece>)
    ensures forall g <- gs :: g.Run?
  {
    if ps == [] then [] else (if ps[0].Run? && ps[0].capture then [ps[0]] else []) + Groups(ps[1..])
  }

  lemma {:induction false} GroupsConcat(a: seq<Piece>, b: seq<Piece>)
    ensures Groups(a + b) == Groups(a) + Groups(b)
  {
    if a != [] {
      assert (a + b)[1..] == a[1..] + b;
      GroupsConcat(a[1..], b);
    } else {
      assert a + b == b;
    }
  }

  /** `caps` could be the text of the groups `gs`: one string per group, long enough, of the group's class. */
  predicate Fits(caps: seq<string>, gs: seq<Piece>) {
    |caps| == |gs| && forall j :: 0 <= j < |caps| ==> FitsGroup(caps[j], gs[j])
  }

  /** `cap` could be the text of the group `g`: long enough, and of the group's class. */
  predicate FitsGroup(cap: string, g: Piece) {
    g.Run? && |cap| >= g.min && forall i :: 0 <= i < |cap| ==> InClass(cap[i], g.cls)
  }

  /** Matches `ps` at exactly `pos`, giving the groups of the first match in backtracking order: each run as long as the rest still allows. */
  function MatchAt(s: string, pos: nat, ps: seq<Piece>): Option<seq<string>>
    requires pos <= |s|
    decreases |ps|, 1, 0
  {
    if ps == [] then Some([])
    else
      match ps[0]
      case Lit(t) => if LitAt(s, pos, t) then MatchAt(s, pos + |t|, ps[1..]) else None
      case Run(k, _, _) => TryRun(s, pos, ps[0], ps[1..], RunLength(s, pos, k))
      case WordBoundary => if BoundaryAt(s, pos) then MatchAt(s, pos, ps[1..]) else None
      case End => if pos == |s| then MatchAt(s, pos, ps[1..]) else None
  }

  /** Tries the run `run` with `k` characters, then with fewer, down to its minimum. */
  function TryRun(s: string, pos: nat, run: Piece, rest: seq<Piece>, k: nat): Option<seq<string>>
    requires run.Run? && pos + k <= |s|
    decreases |rest| + 1, 0, k
  {
    if k < run.min then None
    else
      match MatchAt(s, pos + k, rest)
      case Some(caps) => Some((if run.capture then [s[pos..pos + k]] else []) + caps)
      case None => if k == 0 then None else TryRun(s, pos, run, rest, k - 1)
  }

  /** A match gives one text per group of the pattern, each of the group's class and at least its minimum length. */
  lemma {:induction false} MatchAtFits(s: string, pos: nat, ps: seq<Piece>)
    requires pos <= |s|
    ensures MatchAt(s, pos, ps).Some? ==> Fits(MatchAt(s, pos, ps).value, Groups(ps))
    decreases |ps|, 1, 0
  {
    if ps != [] {
      GroupsHead(ps);
      match ps[0]
      case Lit(t) => if LitAt(s, pos, t) { MatchAtFits(s, pos + |t|, ps[1..]); }
      case Run(k, _, _) =>
        RunLengthClass(s, pos, k);
        TryRunFits(s, pos, ps[0], ps[1..], RunLength(s, pos, k));
      case WordBoundary => MatchAtFits(s, pos, ps[1..]);
      case End => if pos == |s| { MatchAtFits(s, pos, ps[1..]); }
    }
  }

  /** What `MatchAtFits` says, for the run that opens a pattern. */
  lemma {:induction false} TryRunFits(s: string, pos: nat, run: Piece, rest: seq<Piece>, k: nat)
    requires run.Run? && pos + k <= |s|
    requires forall j :: pos <= j < pos + k ==> InClass(s[j], run.cls)
    ensures TryRun(s, pos, run, rest, k).Some? ==> Fits(TryRun(s, pos, run, rest, k).value, (if run.capture then [run] else []) + Groups(rest))
    decreases |rest| + 1, 0, k
  {
    if k >= run.min {
      MatchAtFits(s, pos + k, rest);
      match MatchAt(s, pos + k, rest)
      case Some(caps) =>
        if run.capture {
          FitsCons(s, pos, k, caps, run, Groups(rest));
        } else {
          assert [] + caps == caps;
        }
      case None => if k > 0 { TryRunFits(s, pos, run, rest, k - 1); }
    }
  }

  /** The groups of a pattern are its first piece's, if it captures, then the rest's. */
  lemma GroupsHead(ps: seq<Piece>)
    requires ps != []
    ensures !ps[0].Run? ==> Groups(ps) == Groups(ps[1..])
    ensures ps[0].Run? ==> Groups(ps) == (if ps[0].capture then [ps[0]] else []) + Groups(ps[1..])
  {
  }

  lemma FitsCons(s: string, pos: nat, k: nat, caps: seq<string>, run: Piece, gs: seq<Piece>)
    requires run.Run? && k >= run.min && pos + k <= |s| && Fits(caps, gs)
    requires forall j :: pos <= j < pos + k ==> InClass(s[j], run.cls)
    ensures Fits([s[pos..pos + k]] + caps, [run] + gs)
  {
    var cap := s[pos..pos + k];
    assert forall i :: 0 <= i < |cap| ==> cap[i] == s[pos + i];
    var cs, rs := [cap] + caps, [run] + gs;
    forall j | 0 <= j < |cs| ensures FitsGroup(cs[j], rs[j]) {
      if j > 0 {
        assert cs[j] == caps[j - 1] && rs[j] == gs[j - 1];
      }
    }
  }

  /** The first position at or after `pos` where `ps` matches. */
  function SearchFrom(s: string, ps: seq<Piece>, pos: nat): (r: Option<seq<string>>)
    requires pos <= |s|
    ensures r.Some? ==> Fits(r.value, Groups(ps))
    decreases |s| - pos
  {
    MatchAtFits(s, pos, ps);
    match MatchAt(s, pos, ps)
    case Some(caps) => Some(caps)
    case None => if pos == |s| then None else SearchFrom(s, ps, pos + 1)
  }

  /** `s.match(re)` for a pattern without the global flag: the groups of a match at the leftmost position where there is one. */
  function Search(s: string, ps: seq<Piece>): (r: Option<seq<string>>)
    ensures r.Some? ==> Fits(r.value, Groups(ps))
  {
    SearchFrom(s, ps, 0)
  }

  /** `Search` gives the greedy match at the leftmost position where there is a match, and nothing only when there is no match at any position. */
  lemma SearchSpec(s: string, ps: seq<Piece>)
    ensures var r := Search(s, ps);
      && (r.Some? ==> LeftmostFrom(s, ps, 0, r.value))
      && (r.None? ==> NoMatchBetween(s, ps, 0, |s| + 1))
  {
    SearchFromFinds(s, ps, 0);
  }

  /** Every character of `s[i..j]` is of class `k`. */
  predicate AllIn(s: string, i: nat, j: nat, k: CharClass) {
    j <= |s| && forall m :: i <= m < j ==> InClass(s[m], k)
  }

  /**
    What it means for `ps` to match `s` at `pos` with the group texts `caps`:
    a literal is the text there, ignoring ASCII case; a run is any number of
    characters of its class, at least its minimum, and a group's text is
    exactly those characters; `\b` and `$` only test the position.
   */
  ghost predicate Matches(s: string, pos: nat, ps: seq<Piece>, caps: seq<string>)
    decreases |ps|
  {
    && pos <= |s|
    && if ps == [] then caps == []
       else match ps[0]
         case Lit(t) => LitAt(s, pos, t) && Matches(s, pos + |t|, ps[1..], caps)
         case Run(k, min, capture) =>
           exists e: nat :: pos + min <= e && AllIn(s, pos, e, k) &&
             if capture then caps != [] && caps[0] == s[pos..e] && Matches(s, e, ps[1..], caps[1..])
             else Matches(s, e, ps[1..], caps)
         case WordBoundary => BoundaryAt(s, pos) && Matches(s, pos, ps[1..], caps)
         case End => pos == |s| && Matches(s, pos, ps[1..], caps)
  }

  /** `ps` matches nowhere from `from` up to, but not including, `to`. */
  ghost predicate NoMatchBetween(s: string, ps: seq<Piece>, from: nat, to: int) {
    forall q: nat, c :: from <= q < to ==> !Matches(s, q, ps, c)
  }

  /** No run of class `k` from `pos` that ends after `e` leaves a match of `rest`. */
  ghost predicate Longest(s: string, pos: nat, e: nat, k: CharClass, rest: seq<Piece>) {
    forall e': nat, c :: e < e' && AllIn(s, pos, e', k) ==> !Matches(s, e', rest, c)
  }

  /**
    The match a backtracking engine with greedy runs reports at `pos`: like
    `Matches`, but each run is the longest one after which the rest of the
    pattern still matches, and the rest is again matched this way.
   */
  ghost predicate Greedy(s: string, pos: nat, ps: seq<Piece>, caps: seq<string>)
    decreases |ps|
  {
    && pos <= |s|
    && if ps == [] then caps == []
       else match ps[0]
         case Lit(t) => LitAt(s, pos, t) && Greedy(s, pos + |t|, ps[1..], caps)
         case Run(k, min, capture) =>
           exists e: nat :: pos + min <= e && AllIn(s, pos, e, k) && Longest(s, pos, e, k, ps[1..]) &&
             if capture then caps != [] && caps[0] == s[pos..e] && Greedy(s, e, ps[1..], caps[1..])
             else Greedy(s, e, ps[1..], caps)
         case WordBoundary => BoundaryAt(s, pos) && Greedy(s, pos, ps[1..], caps)
         case End => pos == |s| && Greedy(s, pos, ps[1..], caps)
  }

  /** `caps` are the groups of the greedy match at the first position from `pos` on where `ps` matches. */
  ghost predicate LeftmostFrom(s: string, ps: seq<Piece>, pos: nat, caps: seq<string>) {
    exists p: nat :: pos <= p <= |s| && Greedy(s, p, ps, caps) && NoMatchBetween(s, ps, pos, p)
  }

  /** The greedy match is a match. */
  lemma {:induction false} GreedyMatches(s: string, pos: nat, ps: seq<Piece>, caps: seq<string>)
    requires Greedy(s, pos, ps, caps)
    ensures Matches(s, pos, ps, caps)
    decreases |ps|
  {
    if ps != [] {
      match ps[0]
      case Lit(t) => GreedyMatches(s, pos + |t|, ps[1..], caps);
      case Run(k, min, capture) =>
        var e: nat :| pos + min <= e && AllIn(s, pos, e, k) && Longest(s, pos, e, k, ps[1..]) &&
          if capture then caps != [] && caps[0] == s[pos..e] && Greedy(s, e, ps[1..], caps[1..])
          else Greedy(s, e, ps[1..], caps);
        GreedyMatches(s, e, ps[1..], if capture then caps[1..] else caps);
      case WordBoundary => GreedyMatches(s, pos, ps[1..], caps);
      case End => GreedyMatches(s, pos, ps[1..], caps);
    }
  }

  /** At each position there is at most one greedy match. */
  lemma {:induction false} GreedyUnique(s: string, pos: nat, ps: seq<Piece>, c1: seq<string>, c2: seq<string>)
    requires Greedy(s, pos, ps, c1) && Greedy(s, pos, ps, c2)
    ensures c1 == c2
    decreases |ps|
  {
    if ps != [] {
      match ps[0]
      case Lit(t) => GreedyUnique(s, pos + |t|, ps[1..], c1, c2);
      case Run(_, _, _) =>
        var e1, r1 := GreedyRunStep(s, pos, ps, c1);
        var e2, r2 := GreedyRunStep(s, pos, ps, c2);
        GreedyMatches(s, e1, ps[1..], r1);
        GreedyMatches(s, e2, ps[1..], r2);
        assert e1 == e2;
        GreedyUnique(s, e1, ps[1..], r1, r2);
      case WordBoundary => GreedyUnique(s, pos, ps[1..], c1, c2);
      case End => GreedyUnique(s, pos, ps[1..], c1, c2);
    }
  }

  /** A greedy match that opens with a run: the run's end, and the greedy match of the rest after it. */
  lemma GreedyRunStep(s: string, pos: nat, ps: seq<Piece>, caps: seq<string>) returns (e: nat, more: seq<string>)
    requires ps != [] && ps[0].Run? && Greedy(s, pos, ps, caps)
    ensures pos <= e && AllIn(s, pos, e, ps[0].cls) && Longest(s, pos, e, ps[0].cls, ps[1..]) && Greedy(s, e, ps[1..], more)
    ensures caps == (if ps[0].capture then [s[pos..e]] + more else more)
  {
    var p := ps[0];
    e :| pos + p.min <= e && AllIn(s, pos, e, p.cls) && Longest(s, pos, e, p.cls, ps[1..]) &&
      if p.capture then caps != [] && caps[0] == s[pos..e] && Greedy(s, e, ps[1..], caps[1..])
      else Greedy(s, e, ps[1..], caps);
    more := if p.capture then caps[1..] else caps;
    if p.capture {
      assert caps == [caps[0]] + caps[1..];
    }
  }

  /** The leftmost greedy match is unique: `LeftmostFrom` names one group list at most. */
  lemma LeftmostUnique(s: string, ps: seq<Piece>, pos: nat, c1: seq<string>, c2: seq<string>)
    requires LeftmostFrom(s, ps, pos, c1) && LeftmostFrom(s, ps, pos, c2)
    ensures c1 == c2
  {
    var p1: nat :| pos <= p1 <= |s| && Greedy(s, p1, ps, c1) && NoMatchBetween(s, ps, pos, p1);
    var p2: nat :| pos <= p2 <= |s| && Greedy(s, p2, ps, c2) && NoMatchBetween(s, ps, pos, p2);
    GreedyMatches(s, p1, ps, c1);
    GreedyMatches(s, p2, ps, c2);
    assert p1 == p2;
    GreedyUnique(s, p1, ps, c1, c2);
  }

  /** The matcher reports the greedy match. */
  lemma {:induction false} MatchAtGreedy(s: string, pos: nat, ps: seq<Piece>)
    requires pos <= |s|
    ensures MatchAt(s, pos, ps).Some? ==> Greedy(s, pos, ps, MatchAt(s, pos, ps).value)
    decreases |ps|, 1, 0
  {
    var r := MatchAt(s, pos, ps);
    if ps != [] && r.Some? {
      match ps[0]
      case Lit(t) =>
        MatchAtGreedy(s, pos + |t|, ps[1..]);
        assert Greedy(s, pos + |t|, ps[1..], r.value);
      case Run(k, _, _) =>
        RunLengthClass(s, pos, k);
        LongestRun(s, pos, k, ps[1..]);
        TryRunGreedy(s, pos, ps[0], ps[1..], RunLength(s, pos, k));
        assert [ps[0]] + ps[1..] == ps;
      case WordBoundary =>
        MatchAtGreedy(s, pos, ps[1..]);
        assert Greedy(s, pos, ps[1..], r.value);
      case End =>
        MatchAtGreedy(s, pos, ps[1..]);
        assert Greedy(s, pos, ps[1..], r.value);
    }
  }

  /** No run of class `k` from `pos` is longer than `RunLength` measures. */
  lemma LongestRun(s: string, pos: nat, k: CharClass, rest: seq<Piece>)
    requires pos <= |s|
    ensures Longest(s, pos, pos + RunLength(s, pos, k), k, rest)
  {
    var n := RunLength(s, pos, k);
    forall e': nat | pos + n < e' ensures !AllIn(s, pos, e', k) {
      if e' <= |s| {
        assert !InClass(s[pos + n], k);
      }
    }
  }

  lemma {:induction false} TryRunGreedy(s: string, pos: nat, run: Piece, rest: seq<Piece>, k: nat)
    requires run.Run? && pos + k <= |s|
    requires forall j :: pos <= j < pos + k ==> InClass(s[j], run.cls)
    requires Longest(s, pos, pos + k, run.cls, rest)
    ensures TryRun(s, pos, run, rest, k).Some? ==> Greedy(s, pos, [run] + rest, TryRun(s, pos, run, rest, k).value)
    decreases |rest| + 1, 0, k
  {
    if k >= run.min {
      var ps := [run] + rest;
      assert ps[0] == run && ps[1..] == rest;
      MatchAtGreedy(s, pos + k, rest);
      match MatchAt(s, pos + k, rest)
      case Some(caps) =>
        assert AllIn(s, pos, pos + k, run.cls);
        if run.capture {
          var cs := [s[pos..pos + k]] + caps;
          assert cs[0] == s[pos..pos + k] && cs[1..] == caps;
        } else {
          assert [] + caps == caps;
        }
      case None =>
        if k > 0 {
          LongestStep(s, pos, k, run.cls, rest);
          TryRunGreedy(s, pos, run, rest, k - 1);
        }
    }
  }

  /** Where the rest does not match after `k` characters, a run of `k - 1` is the longest that could still do. */
  lemma LongestStep(s: string, pos: nat, k: nat, cls: CharClass, rest: seq<Piece>)
    requires k > 0 && pos + k <= |s| && Longest(s, pos, pos + k, cls, rest) && MatchAt(s, pos + k, rest).None?
    ensures Longest(s, pos, pos + k - 1, cls, rest)
  {
    NoMatchAt(s, pos + k, rest);
  }

  /** The matcher only reports matches. */
  lemma {:induction false} MatchAtSound(s: string, pos: nat, ps: seq<Piece>)
    requires pos <= |s|
    ensures MatchAt(s, pos, ps).Some? ==> Matches(s, pos, ps, MatchAt(s, pos, ps).value)
    decreases |ps|, 1, 0
  {
    var r := MatchAt(s, pos, ps);
    if ps != [] && r.Some? {
      match ps[0]
      case Lit(t) =>
        MatchAtSound(s, pos + |t|, ps[1..]);
        assert Matches(s, pos + |t|, ps[1..], r.value);
      case Run(k, _, _) =>
        RunLengthClass(s, pos, k);
        TryRunSound(s, pos, ps[0], ps[1..], RunLength(s, pos, k));
        assert [ps[0]] + ps[1..] == ps;
      case WordBoundary =>
        MatchAtSound(s, pos, ps[1..]);
        assert Matches(s, pos, ps[1..], r.value);
      case End =>
        MatchAtSound(s, pos, ps[1..]);
        assert Matches(s, pos, ps[1..], r.value);
    }
  }

  lemma {:induction false} TryRunSound(s: string, pos: nat, run: Piece, rest: seq<Piece>, k: nat)
    requires run.Run? && pos + k <= |s|
    requires forall j :: pos <= j < pos + k ==> InClass(s[j], run.cls)
    ensures TryRun(s, pos, run, rest, k).Some? ==> Matches(s, pos, [run] + rest, TryRun(s, pos, run, rest, k).value)
    decreases |rest| + 1, 0, k
  {
    if k >= run.min {
      var ps := [run] + rest;
      assert ps[0] == run && ps[1..] == rest;
      MatchAtSound(s, pos + k, rest);
      match MatchAt(s, pos + k, rest)
      case Some(caps) =>
        assert AllIn(s, pos, pos + k, run.cls);
        if run.capture {
          var cs := [s[pos..pos + k]] + caps;
          assert cs[0] == s[pos..pos + k] && cs[1..] == caps;
        } else {
          assert [] + caps == caps;
        }
      case None =>
        if k > 0 {
          TryRunSound(s, pos, run, rest, k - 1);
        }
    }
  }

  /** The matcher finds a match wherever there is one. */
  lemma {:induction false} MatchAtComplete(s: string, pos: nat, ps: seq<Piece>, caps: seq<string>)
    ensures Matches(s, pos, ps, caps) ==> MatchAt(s, pos, ps).Some?
    decreases |ps|, 1, 0
  {
    if Matches(s, pos, ps, caps) && ps != [] {
      match ps[0]
      case Lit(t) =>
        MatchAtComplete(s, pos + |t|, ps[1..], caps);
      case Run(k, min, capture) =>
        var e: nat :| pos + min <= e && AllIn(s, pos, e, k) &&
          if capture then caps != [] && caps[0] == s[pos..e] && Matches(s, e, ps[1..], caps[1..])
          else Matches(s, e, ps[1..], caps);
        var n := RunLength(s, pos, k);
        RunLengthClass(s, pos, k);
        assert pos + n == |s| || !InClass(s[pos + n], k);
        assert e <= pos + n;
        TryRunComplete(s, pos, ps[0], ps[1..], n, e, if capture then caps[1..] else caps);
      case WordBoundary =>
        MatchAtComplete(s, pos, ps[1..], caps);
      case End =>
        MatchAtComplete(s, pos, ps[1..], caps);
    }
  }

  lemma {:induction false} TryRunComplete(s: string, pos: nat, run: Piece, rest: seq<Piece>, k: nat, e: nat, caps: seq<string>)
    requires run.Run? && pos + k <= |s|
    requires forall j :: pos <= j < pos + k ==> InClass(s[j], run.cls)
    requires pos + run.min <= e <= pos + k && Matches(s, e, rest, caps)
    ensures TryRun(s, pos, run, rest, k).Some?
    decreases |rest| + 1, 0, k
  {
    if e == pos + k {
      MatchAtComplete(s, e, rest, caps);
    } else if MatchAt(s, pos + k, rest).None? {
      TryRunComplete(s, pos, run, rest, k - 1, e, caps);
    }
  }

  /** The search reports a match at the leftmost position from `pos` on, and nothing only when there is no match. */
  lemma {:induction false} SearchFromFinds(s: string, ps: seq<Piece>, pos: nat)
    requires pos <= |s|
    ensures var r := SearchFrom(s, ps, pos);
      && (r.Some? ==> LeftmostFrom(s, ps, pos, r.value))
      && (r.None? ==> NoMatchBetween(s, ps, pos, |s| + 1))
    decreases |s| - pos
  {
    MatchAtGreedy(s, pos, ps);
    forall c {
      MatchAtComplete(s, pos, ps, c);
    }
    var r := SearchFrom(s, ps, pos);
    if MatchAt(s, pos, ps).Some? {
      assert Greedy(s, pos, ps, r.value) && NoMatchBetween(s, ps, pos, pos);
    } else if pos == |s| {
    } else {
      SearchFromFinds(s, ps, pos + 1);
      if r.Some? {
        var p: nat :| pos + 1 <= p <= |s| && Greedy(s, p, ps, r.value) && NoMatchBetween(s, ps, pos + 1, p);
        assert NoMatchBetween(s, ps, pos, p);
      }
    }
  }

  /** `Label:\s*(k+)`: a label, optional blanks, and a captured non-empty run of `k`. */
  function Field(key: string, k: CharClass): seq<Piece> {
    [Lit(key), Run(SpaceClass, 0, false), Run(k, 1, true)]
  }

  /** `.*` */
  const Gap: seq<Piece> := [Run(DotClass, 0, false)]

  /** `/^(\S+)\s+(\d+)\s+(A|AAAA|CNAME|MX|SRV|TXT|CAA)\b/i` up to the keyword, which is the third group. */
  const StartPattern: seq<Piece> := [
    Run(NonSpaceClass, 1, true), Run(SpaceClass, 1, false), Run(DigitClass, 1, true),
    Run(SpaceClass, 1, false), Run(WordClass, 1, true), WordBoundary]

  /** A field followed by `.*`. */
  function FieldGap(key: string, k: CharClass): seq<Piece> {
    Field(key, k) + Gap
  }

  /** `/Priority:\s*(\d+).*Destination:\s*([^\s]+)/i` */
  const MxPattern: seq<Piece> :=
    FieldGap("priority:", DigitClass) + Field("destination:", NonSpaceClass)

  /** `/Priority:\s*(\d+).*Weight:\s*(\d+).*Port:\s*(\d+).*Target:\s*([^\s]+)/i` */
  const SrvPattern: seq<Piece> :=
    FieldGap("priority:", DigitClass) + FieldGap("weight:", DigitClass)
    + FieldGap("port:", DigitClass) + Field("target:", NonSpaceClass)

  /** `/Flag:\s*(\d+).*Tag:\s*([A-Za-z0-9]+).*Value:\s*(.+)$/i` */
  const CaaPattern: seq<Piece> :=
    FieldGap("flag:", DigitClass) + FieldGap("tag:", AlnumClass) + Field("value:", DotClass) + [End]

  lemma StartGroups()
    ensures Groups(StartPattern) == [Run(NonSpaceClass, 1, true), Run(DigitClass, 1, true), Run(WordClass, 1, true)]
  {
  }

  lemma FieldGroups(key: string, k: CharClass)
    ensures Groups(Field(key, k)) == [Run(k, 1, true)]
  {
    var f := Field(key, k);
    assert f[1..] == [f[1], f[2]] && f[1..][1..] == [f[2]] && f[1..][1..][1..] == [];
    assert Groups(f[1..][1..]) == [f[2]];
    assert Groups(f[1..]) == [f[2]];
  }

  lemma FieldGapGroups(key: string, k: CharClass)
    ensures Groups(FieldGap(key, k)) == [Run(k, 1, true)]
  {
    FieldGroups(key, k);
    assert Groups(Gap) == [];
    GroupsConcat(Field(key, k), Gap);
  }

  /** Each field of a chain contributes its one group, in order. */
  lemma ChainGroups(a: seq<Piece>, ga: seq<Piece>, key: string, k: CharClass)
    requires Groups(a) == ga
    ensures Groups(a + FieldGap(key, k)) == ga + [Run(k, 1, true)]
    ensures Groups(a + Field(key, k)) == ga + [Run(k, 1, true)]
  {
    FieldGapGroups(key, k);
    FieldGroups(key, k);
    GroupsConcat(a, FieldGap(key, k));
    GroupsConcat(a, Field(key, k));
  }

  lemma MxGroups()
    ensures Groups(MxPattern) == [Run(DigitClass, 1, true), Run(NonSpaceClass, 1, true)]
  {
    FieldGapGroups("priority:", DigitClass);
    ChainGroups(FieldGap("priority:", DigitClass), [Run(DigitClass, 1, true)], "destination:", NonSpaceClass);
  }

  lemma SrvGroups()
    ensures Groups(SrvPattern) == [Run(DigitClass, 1, true), Run(DigitClass, 1, true), Run(DigitClass, 1, true), Run(NonSpaceClass, 1, true)]
  {
    var d := Run(DigitClass, 1, true);
    var a := FieldGap("priority:", DigitClass);
    assert Groups(a) == [d] by {
      FieldGapGroups("priority:", DigitClass);
    }
    var b := a + FieldGap("weight:", DigitClass);
    assert Groups(b) == [d, d] by {
      ChainGroups(a, [d], "weight:", DigitClass);
    }
    var c := b + FieldGap("port:", DigitClass);
    assert Groups(c) == [d, d, d] by {
      ChainGroups(b, [d, d], "port:", DigitClass);
    }
    ChainGroups(c, [d, d, d], "target:", NonSpaceClass);
  }

  lemma CaaGroups()
    ensures Groups(CaaPattern) == [Run(DigitClass, 1, true), Run(AlnumClass, 1, true), Run(DotClass, 1, true)]
  {
    var d, w := Run(DigitClass, 1, true), Run(AlnumClass, 1, true);
    var a := FieldGap("flag:", DigitClass);
    assert Groups(a) == [d] by {
      FieldGapGroups("flag:", DigitClass);
    }
    var b := a + FieldGap("tag:", AlnumClass);
    assert Groups(b) == [d, w] by {
      ChainGroups(a, [d], "tag:", AlnumClass);
    }
    var c := b + Field("value:", DotClass);
    assert Groups(c) == [d, w, Run(DotClass, 1, true)] by {
      ChainGroups(b, [d, w], "value:", DotClass);
    }
    assert Groups([End]) == [];
    GroupsConcat(c, [End]);
  }

  /** What Fits says about one group. */
  lemma FitsAt(caps: seq<string>, gs: seq<Piece>, j: nat)
    requires Fits(caps, gs) && j < |caps|
    ensures gs[j].Run? && |caps[j]| >= gs[j].min
    ensures forall i :: 0 <= i < |caps[j]| ==> InClass(caps[j][i], gs[j].cls)
  {
  }

  /** A pattern that opens with a field label finds nothing in empty text. */
  lemma EmptyNoField(ps: seq<Piece>, key: string, k: CharClass)
    requires key != [] && |ps| >= 3 && ps[..3] == Field(key, k)
    ensures Search([], ps) == None
  {
    assert ps[0] == Lit(key);
  }

  /** An empty listing has no MX or SRV fields. */
  lemma EmptyListing()
    ensures MatchMx([]) == None && MatchSrv([]) == None
  {
    EmptyNoField(MxPattern, "priority:", DigitClass);
    EmptyNoField(SrvPattern, "priority:", DigitClass);
  }

  predicate NoLineTerminator(s: string) {
    forall i :: 0 <= i < |s| ==> !IsLineTerminator(s[i])
  }

  predicate IsAlnumText(s: string) {
    |s| > 0 && forall i :: 0 <= i < |s| ==> IsAlnum(s[i])
  }

  predicate IsToken(s: string) {
    |s| > 0 && NoSpace(s)
  }

  /**
    A start line of a pasted record block: its first token (the name), the
    digits after it (the TTL) and the word after those, which the caller
    checks against the record types.
   */
  function MatchStart(line: string): (r: Option<(string, string, string)>)
    ensures r.Some? ==> IsToken(r.value.0) && IsDigits(r.value.1)
    ensures r.Some? ==> |r.value.2| > 0 && forall i :: 0 <= i < |r.value.2| ==> IsWordChar(r.value.2[i])
  {
    MatchAtFits(line, 0, StartPattern);
    match MatchAt(line, 0, StartPattern)
    case Some(caps) =>
      StartCaps(caps);
      assert caps == [caps[0], caps[1], caps[2]];
      Some((caps[0], caps[1], caps[2]))
    case None => None
  }

  /** `MatchStart` gives the groups of the greedy match of the start pattern at the start of the line, and nothing only when there is no match there. */
  lemma MatchStartSpec(line: string)
    ensures var r := MatchStart(line);
      && (r.Some? ==> Greedy(line, 0, StartPattern, [r.value.0, r.value.1, r.value.2]))
      && (r.None? ==> forall caps :: !Matches(line, 0, StartPattern, caps))
  {
    MatchAtGreedy(line, 0, StartPattern);
    NoMatchAt(line, 0, StartPattern);
    match MatchAt(line, 0, StartPattern)
    case Some(caps) =>
      MatchAtFits(line, 0, StartPattern);
      StartCaps(caps);
      assert caps == [caps[0], caps[1], caps[2]];
    case None =>
  }

  /** Where the matcher fails there is no match. */
  lemma NoMatchAt(s: string, pos: nat, ps: seq<Piece>)
    ensures pos <= |s| && MatchAt(s, pos, ps).None? ==> forall caps :: !Matches(s, pos, ps, caps)
  {
    forall caps {
      MatchAtComplete(s, pos, ps, caps);
    }
  }

  /** What the three groups of a start line hold. */
  lemma StartCaps(caps: seq<string>)
    requires Fits(caps, Groups(StartPattern))
    ensures |caps| == 3 && IsToken(caps[0]) && IsDigits(caps[1])
    ensures |caps[2]| > 0 && forall i :: 0 <= i < |caps[2]| ==> IsWordChar(caps[2][i])
  {
    StartGroups();
    var gs := Groups(StartPattern);
    FitsAt(caps, gs, 0);
    FitsAt(caps, gs, 1);
    FitsAt(caps, gs, 2);
  }

  /** The priority and destination of an MX listing. */
  function MatchMx(text: string): (r: Option<(string, string)>)
    ensures r.Some? ==> IsDigits(r.value.0) && IsToken(r.value.1)
  {
    match Search(text, MxPattern)
    case Some(caps) =>
      MxGroups();
      FitsAt(caps, Groups(MxPattern), 0);
      FitsAt(caps, Groups(MxPattern), 1);
      assert caps == [caps[0], caps[1]];
      Some((caps[0], caps[1]))
    case None => None
  }

  /** The priority, weight, port and target of an SRV listing. */
  function MatchSrv(text: string): (r: Option<(string, string, string, string)>)
    ensures r.Some? ==> IsDigits(r.value.0) && IsDigits(r.value.1) && IsDigits(r.value.2) && IsToken(r.value.3)
  {
    match Search(text, SrvPattern)
    case Some(caps) =>
      SrvGroups();
      FitsAt(caps, Groups(SrvPattern), 0);
      FitsAt(caps, Groups(SrvPattern), 1);
      FitsAt(caps, Groups(SrvPattern), 2);
      FitsAt(caps, Groups(SrvPattern), 3);
      assert caps == [caps[0], caps[1], caps[2], caps[3]];
      Some((caps[0], caps[1], caps[2], caps[3]))
    case None => None
  }

  /** The flag, tag and value of a CAA listing; the value runs to the end of the text. */
  function MatchCaa(text: string): (r: Option<(string, string, string)>)
    ensures r.Some? ==> IsDigits(r.value.0) && IsAlnumText(r.value.1)
    ensures r.Some? ==> |r.value.2| > 0 && NoLineTerminator(r.value.2)
  {
    match Search(text, CaaPattern)
    case Some(caps) =>
      CaaGroups();
      FitsAt(caps, Groups(CaaPattern), 0);
      FitsAt(caps, Groups(CaaPattern), 1);
      FitsAt(caps, Groups(CaaPattern), 2);
      assert caps == [caps[0], caps[1], caps[2]];
      Some((caps[0], caps[1], caps[2]))
    case None => None
  }

  /** `MatchMx` gives the groups of the greedy match at the leftmost position where there is a match, and nothing only when there is none. */
  lemma MatchMxLeftmost(text: string)
    ensures var r := MatchMx(text);
      && (r.Some? ==> LeftmostFrom(text, MxPattern, 0, [r.value.0, r.value.1]))
      && (r.None? ==> NoMatchBetween(text, MxPattern, 0, |text| + 1))
  {
    SearchSpec(text, MxPattern);
    match Search(text, MxPattern)
    case Some(caps) =>
      MxGroups();
      assert caps == [caps[0], caps[1]];
    case None =>
  }

  /** `MatchSrv` gives the groups of the greedy match at the leftmost position where there is a match, and nothing only when there is none. */
  lemma MatchSrvLeftmost(text: string)
    ensures var r := MatchSrv(text);
      && (r.Some? ==> LeftmostFrom(text, SrvPattern, 0, [r.value.0, r.value.1, r.value.2, r.value.3]))
      && (r.None? ==> NoMatchBetween(text, SrvPattern, 0, |text| + 1))
  {
    SearchSpec(text, SrvPattern);
    match Search(text, SrvPattern)
    case Some(caps) =>
      SrvGroups();
      assert caps == [caps[0], caps[1], caps[2], caps[3]];
    case None =>
  }

  /** `MatchCaa` gives the groups of the greedy match at the leftmost position where there is a match, and nothing only when there is none. */
  lemma MatchCaaLeftmost(text: string)
    ensures var r := MatchCaa(text);
      && (r.Some? ==> LeftmostFrom(text, CaaPattern, 0, [r.value.0, r.value.1, r.value.2]))
      && (r.None? ==> NoMatchBetween(text, CaaPattern, 0, |text| + 1))
  {
    SearchSpec(text, CaaPattern);
    match Search(text, CaaPattern)
    case Some(caps) =>
      CaaGroups();
      assert caps == [caps[0], caps[1], caps[2]];
    case None =>
  }
}
