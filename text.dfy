/**
  String helpers with JavaScript's meaning: the `\s` character class, `trim()`,
  ASCII case mapping, `split`/`join` on one separator character, and the
  whitespace normaliser `norm` that every other part of the importer runs its
  input through.
 */
module Text {

  /** JavaScript's `\s` (also the set `trim()` removes): WhiteSpace and LineTerminator. */
  predicate IsSpace(c: char) {
    || c == '\t' || c == '\n' || c == '\U{B}' || c == '\U{C}' || c == '\r' || c == ' '
    || c == '\U{A0}' || c == '\U{1680}' || ('\U{2000}' <= c <= '\U{200A}')
    || c == '\U{2028}' || c == '\U{2029}' || c == '\U{202F}' || c == '\U{205F}'
    || c == '\U{3000}' || c == '\U{FEFF}'
  }

  /** The characters JavaScript's `.` does not match. */
  predicate IsLineTerminator(c: char) {
    c == '\n' || c == '\r' || c == '\U{2028}' || c == '\U{2029}'
  }

  predicate IsDigit(c: char) { '0' <= c <= '9' }

  predicate IsAlnum(c: char) { IsDigit(c) || 'a' <= c <= 'z' || 'A' <= c <= 'Z' }

  /** JavaScript's `\w`, whose edges `\b` detects. */
  predicate IsWordChar(c: char) { IsAlnum(c) || c == '_' }

  /** `/^\d+$/.test(s)`. */
  predicate IsDigits(s: string) {
    |s| > 0 && forall i :: 0 <= i < |s| ==> IsDigit(s[i])
  }

  predicate NoSpace(s: string) {
    forall i :: 0 <= i < |s| ==> !IsSpace(s[i])
  }

  predicate EndsWith(s: string, suffix: string) {
    |suffix| <= |s| && s[|s| - |suffix|..] == suffix
  }

  function LowerChar(c: char): char {
    if 'A' <= c <= 'Z' then (c as int + 32) as char else c
  }

  function UpperChar(c: char): char {
    if 'a' <= c <= 'z' then (c as int - 32) as char else c
  }

  /** `toLowerCase()` on the ASCII range. */
  function ToLower(s: string): (r: string)
    ensures |r| == |s| && forall i :: 0 <= i < |s| ==> r[i] == LowerChar(s[i])
  {
    seq(|s|, i requires 0 <= i < |s| => LowerChar(s[i]))
  }

  /** `toUpperCase()` on the ASCII range. */
  function ToUpper(s: string): (r: string)
    ensures |r| == |s| && forall i :: 0 <= i < |s| ==> r[i] == UpperChar(s[i])
  {
    seq(|s|, i requires 0 <= i < |s| => UpperChar(s[i]))
  }

  lemma LowerConcat(a: string, b: string)
    ensures ToLower(a + b) == ToLower(a) + ToLower(b)
  {
  }

  lemma LowerIdempotent(s: string)
    ensures ToLower(ToLower(s)) == ToLower(s)
  {
  }

  /** The non-whitespace characters of `s`, in order; also `s.replace(/\s+/g, "")`. */
  function NonSpace(s: string): string {
    if s == [] then [] else (if IsSpace(s[0]) then [] else [s[0]]) + NonSpace(s[1..])
  }

  lemma {:induction false} NonSpaceConcat(a: string, b: string)
    ensures NonSpace(a + b) == NonSpace(a) + NonSpace(b)
  {
    if a != [] {
      assert (a + b)[1..] == a[1..] + b;
      NonSpaceConcat(a[1..], b);
    } else {
      assert a + b == b;
    }
  }

  lemma {:induction false} NonSpaceOfNoSpace(s: string)
    requires NoSpace(s)
    ensures NonSpace(s) == s
  {
    if s != [] {
      NonSpaceOfNoSpace(s[1..]);
    }
  }

  /** Every whitespace character is a single ' ' followed by a non-whitespace character. */
  predicate InnerNormal(t: string) {
    && (forall i :: 0 <= i < |t| && IsSpace(t[i]) ==> t[i] == ' ' && i + 1 < |t|)
    && (forall i :: 0 <= i < |t| - 1 ==> NoDoubleSpaceAt(t, i))
  }

  /** The character after a whitespace character at `i` is not whitespace. */
  predicate NoDoubleSpaceAt(t: string, i: nat)
    requires i + 1 < |t|
  {
    IsSpace(t[i]) ==> !IsSpace(t[i + 1])
  }

  /** What `norm` produces: single inner spaces only, nothing to trim. */
  predicate Normal(t: string) {
    InnerNormal(t) && (t == [] || (!IsSpace(t[0]) && !IsSpace(t[|t| - 1])))
  }

  /**
    Copies `s`, turning each whitespace run into one space placed before the
    next kept character; `gap` says a run was just skipped.
   */
  function Collapse(s: string, gap: bool): (r: string)
    ensures InnerNormal(r)
    ensures r == [] || !IsSpace(r[|r| - 1])
    ensures !gap && s != [] && !IsSpace(s[0]) ==> r != [] && r[0] == s[0]
    ensures NonSpace(r) == NonSpace(s)
    decreases |s|
  {
    if s == [] then []
    else if IsSpace(s[0]) then Collapse(s[1..], true)
    else
      var head := if gap then [' ', s[0]] else [s[0]];
      var tail := Collapse(s[1..], false);
      CollapseStep(head, tail, s[0]);
      head + tail
  }

  /** One kept character, with or without the space before it, put in front of a collapsed rest. */
  lemma CollapseStep(head: string, tail: string, c: char)
    requires !IsSpace(c) && (head == [c] || head == [' ', c])
    requires InnerNormal(tail) && (tail == [] || !IsSpace(tail[|tail| - 1]))
    ensures InnerNormal(head + tail)
    ensures !IsSpace((head + tail)[|head + tail| - 1])
    ensures NonSpace(head + tail) == [c] + NonSpace(tail)
  {
    NonSpaceConcat(head, tail);
    assert NonSpace(head) == [c] by {
      if head != [c] {
        assert head[1..] == [c];
        assert NonSpace(head) == NonSpace(head[1..]);
      }
    }
    var r := head + tail;
    forall i | 0 <= i < |r| && IsSpace(r[i])
      ensures r[i] == ' ' && i + 1 < |r|
    {
      if i >= |head| {
        assert r[i] == tail[i - |head|];
      }
    }
    forall i | 0 <= i < |r| - 1
      ensures NoDoubleSpaceAt(r, i)
    {
      if i >= |head| {
        assert r[i] == tail[i - |head|] && r[i + 1] == tail[i + 1 - |head|];
        assert NoDoubleSpaceAt(tail, i - |head|);
      }
    }
  }

  /**
    `norm(value)`: non-breaking spaces and whitespace runs become one space,
    then the ends are trimmed. The result is Normal and keeps exactly the
    non-whitespace characters of the input, in order.
   */
  function Norm(s: string): (r: string)
    ensures Normal(r)
    ensures NonSpace(r) == NonSpace(s)
    decreases |s|
  {
    if s == [] then [] else if IsSpace(s[0]) then Norm(s[1..]) else Collapse(s, false)
  }

  /** `norm` is `s.split(/\s+/).filter(Boolean).join(" ")`: the words of the input joined by single spaces. */
  lemma {:induction false} NormWords(s: string)
    ensures Norm(s) == Join(Words(s), ' ')
    decreases |s|
  {
    if s != [] {
      if IsSpace(s[0]) {
        NormWords(s[1..]);
      } else {
        CollapseWords(s, false);
      }
    }
  }

  /** The longest prefix of `s` without whitespace. */
  function LeadWord(s: string): (w: string)
    ensures w <= s && NoSpace(w)
    ensures |w| < |s| ==> IsSpace(s[|w|])
    ensures s != [] && !IsSpace(s[0]) ==> w != []
  {
    if s == [] || IsSpace(s[0]) then [] else [s[0]] + LeadWord(s[1..])
  }

  /** `s.split(/\s+/).filter(Boolean)`: the maximal runs of non-whitespace characters, in order. */
  function Words(s: string): (ws: seq<string>)
    ensures forall w <- ws :: w != [] && NoSpace(w)
    decreases |s|
  {
    if s == [] then []
    else if IsSpace(s[0]) then Words(s[1..])
    else
      var w := LeadWord(s);
      [w] + Words(s[|w|..])
  }

  /** A non-whitespace character in front either starts a word of its own or joins the first word. */
  lemma WordsCons(c: char, t: string)
    requires !IsSpace(c)
    ensures t == [] || IsSpace(t[0]) ==> Words([c] + t) == [[c]] + Words(t)
    ensures t != [] && !IsSpace(t[0]) ==> Words([c] + t) == [[c] + Words(t)[0]] + Words(t)[1..]
  {
    var s := [c] + t;
    assert s[1..] == t;
    assert LeadWord(s) == [c] + LeadWord(t);
    assert s[|LeadWord(s)|..] == t[|LeadWord(t)|..];
    if t == [] || IsSpace(t[0]) {
      assert LeadWord(s) == [c];
    }
  }

  /** A character put in front of the first of several pieces comes first in their join. */
  lemma JoinConsHead(c: char, ws: seq<string>, d: char)
    requires ws != []
    ensures Join([[c] + ws[0]] + ws[1..], d) == [c] + Join(ws, d)
  {
    var vs := [[c] + ws[0]] + ws[1..];
    assert vs[1..] == ws[1..];
  }

  /**
    `Collapse` joins the words with single spaces, with one space in front when
    a run was skipped before the first word.
   */
  lemma {:induction false} CollapseWords(s: string, gap: bool)
    ensures Collapse(s, gap)
      == (if (gap || (s != [] && IsSpace(s[0]))) && Words(s) != [] then [' '] else []) + Join(Words(s), ' ')
    decreases |s|
  {
    if s != [] {
      var t := s[1..];
      if IsSpace(s[0]) {
        CollapseWords(t, true);
      } else {
        CollapseWords(t, false);
        assert [s[0]] + t == s;
        JoinWordsCons(s[0], t);
        var g: string := if gap then [' '] else [];
        var x: string := if t != [] && IsSpace(t[0]) && Words(t) != [] then [' '] else [];
        var head: string := if gap then [' ', s[0]] else [s[0]];
        assert Collapse(s, gap) == head + Collapse(t, false);
        assert head == g + [s[0]];
        AppendRegroup(g, [s[0]], x, Join(Words(t), ' '));
      }
    }
  }

  lemma AppendRegroup<T>(a: seq<T>, b: seq<T>, c: seq<T>, d: seq<T>)
    ensures (a + b) + (c + d) == a + ((b + c) + d)
  {
  }

  /** The words of a text that starts with a kept character, joined: that character, then the space the rest starts with if a word follows, then the rest's words. */
  lemma JoinWordsCons(c: char, t: string)
    requires !IsSpace(c)
    ensures Words([c] + t) != []
    ensures Join(Words([c] + t), ' ')
      == [c] + (if t != [] && IsSpace(t[0]) && Words(t) != [] then [' '] else []) + Join(Words(t), ' ')
  {
    WordsCons(c, t);
    if t != [] && !IsSpace(t[0]) {
      assert Words(t) != [];
      JoinConsHead(c, Words(t), ' ');
    } else {
      var ws := [[c]] + Words(t);
      assert ws[1..] == Words(t);
    }
  }

  lemma InnerNormalSuffix(t: string, k: nat)
    requires InnerNormal(t) && k <= |t|
    ensures InnerNormal(t[k..])
  {
    var u := t[k..];
    forall i | 0 <= i < |u| && IsSpace(u[i])
      ensures u[i] == ' ' && i + 1 < |u|
    {
      assert u[i] == t[k + i];
    }
    forall i | 0 <= i < |u| - 1
      ensures NoDoubleSpaceAt(u, i)
    {
      assert u[i] == t[k + i] && u[i + 1] == t[k + i + 1];
      assert NoDoubleSpaceAt(t, k + i);
    }
  }

  lemma CollapseGap(u: string)
    requires u != [] && !IsSpace(u[0])
    ensures Collapse(u, true) == [' '] + Collapse(u, false)
  {
  }

  lemma {:induction false} CollapseFixes(t: string)
    requires Normal(t)
    ensures Collapse(t, false) == t
    decreases |t|
  {
    if t != [] {
      var rest := t[1..];
      InnerNormalSuffix(t, 1);
      if rest != [] {
        if !IsSpace(rest[0]) {
          CollapseFixes(rest);
        } else {
          assert NoDoubleSpaceAt(t, 1);
          InnerNormalSuffix(t, 2);
          assert rest[1..] == t[2..];
          CollapseFixes(t[2..]);
          CollapseGap(t[2..]);
          assert [' '] + t[2..] == rest;
        }
      }
      assert [t[0]] + rest == t;
    }
  }

  /** `norm` changes nothing that is already normal, so it is idempotent. */
  lemma NormFixesNormal(t: string)
    requires Normal(t)
    ensures Norm(t) == t
  {
    if t != [] {
      CollapseFixes(t);
    }
  }

  lemma NormIdempotent(s: string)
    ensures Norm(Norm(s)) == Norm(s)
  {
    NormFixesNormal(Norm(s));
  }

  lemma NormalOfNoSpace(s: string)
    requires NoSpace(s)
    ensures Normal(s)
  {
  }

  lemma NormalAppend(t: string, u: string)
    requires Normal(t) && NoSpace(u)
    ensures Normal(t + u)
  {
    var w := t + u;
    forall i | 0 <= i < |w| && IsSpace(w[i])
      ensures w[i] == ' ' && i + 1 < |w|
    {
      assert i < |t|;
    }
    forall i | 0 <= i < |w| - 1
      ensures NoDoubleSpaceAt(w, i)
    {
      if IsSpace(w[i]) {
        assert i < |t| && NoDoubleSpaceAt(t, i);
      }
    }
  }

  /** Leading whitespace removed. */
  function TrimStart(s: string): (r: string)
    ensures |r| <= |s| && r == s[|s| - |r|..]
    ensures r == [] || !IsSpace(r[0])
  {
    if s != [] && IsSpace(s[0]) then TrimStart(s[1..]) else s
  }

  /** Only whitespace comes before what `TrimStart` keeps. */
  lemma {:induction false} TrimStartSpaces(s: string)
    ensures forall k :: 0 <= k < |s| - |TrimStart(s)| ==> IsSpace(s[k])
  {
    if s != [] && IsSpace(s[0]) {
      TrimStartSpaces(s[1..]);
      forall k | 0 < k < |s| - |TrimStart(s)| ensures IsSpace(s[k]) {
        assert s[k] == s[1..][k - 1];
      }
    }
  }

  /** Trailing whitespace removed. */
  function TrimEnd(s: string): (r: string)
    ensures r <= s
    ensures r == [] || !IsSpace(r[|r| - 1])
  {
    if s != [] && IsSpace(s[|s| - 1]) then TrimEnd(s[..|s| - 1]) else s
  }

  /** Only whitespace comes after what `TrimEnd` keeps. */
  lemma {:induction false} TrimEndSpaces(s: string)
    ensures forall k :: |TrimEnd(s)| <= k < |s| ==> IsSpace(s[k])
  {
    if s != [] && IsSpace(s[|s| - 1]) {
      TrimEndSpaces(s[..|s| - 1]);
      forall k | |TrimEnd(s)| <= k < |s| - 1 ensures IsSpace(s[k]) {
        assert s[k] == s[..|s| - 1][k];
      }
    }
  }

  /** `r` is the slice of `s` from `i`, and everything of `s` outside it is whitespace. */
  predicate SpaceAround(s: string, r: string, i: int) {
    && 0 <= i && i + |r| <= |s| && r == s[i..i + |r|]
    && (forall k :: 0 <= k < i ==> IsSpace(s[k]))
    && (forall k :: i + |r| <= k < |s| ==> IsSpace(s[k]))
  }

  /** `trim()`. */
  function Trim(s: string): (r: string)
    ensures r == [] || (!IsSpace(r[0]) && !IsSpace(r[|r| - 1]))
  {
    TrimEnd(TrimStart(s))
  }

  /** `trim()` gives the slice of the input after its leading whitespace, with only whitespace outside it. */
  lemma {:induction false} TrimSlice(s: string)
    ensures SpaceAround(s, Trim(s), |s| - |TrimStart(s)|)
  {
    var t := TrimStart(s);
    var r := TrimEnd(t);
    TrimStartSpaces(s);
    TrimEndSpaces(t);
    SpaceAroundOf(s, t, r);
    assert Trim(s) == r;
  }

  /** Whitespace before a suffix `t` of `s`, and whitespace after a prefix `r` of `t`, leave `r` with whitespace all around it in `s`. */
  lemma SpaceAroundOf(s: string, t: string, r: string)
    requires |t| <= |s| && t == s[|s| - |t|..] && r <= t
    requires forall k :: 0 <= k < |s| - |t| ==> IsSpace(s[k])
    requires forall k :: |r| <= k < |t| ==> IsSpace(t[k])
    ensures SpaceAround(s, r, |s| - |t|)
  {
    PrefixOfSuffix(s, t, r);
  }

  /** A prefix `r` of a suffix `t` of `s` is the slice of `s` where `t` starts, and what follows `r` in `s` follows it in `t`. */
  lemma PrefixOfSuffix<T>(s: seq<T>, t: seq<T>, r: seq<T>)
    requires |t| <= |s| && t == s[|s| - |t|..] && r <= t
    ensures r == s[|s| - |t|..|s| - |t| + |r|]
    ensures forall k :: |s| - |t| + |r| <= k < |s| ==> s[k] == t[k - (|s| - |t|)]
  {
    assert r == t[..|r|];
  }

  /** Only one slice of `s` has whitespace all around it and none at its ends, so `trim()` is that slice. */
  lemma {:induction false} TrimUnique(s: string, u: string, i: int)
    requires SpaceAround(s, u, i)
    requires u == [] || (!IsSpace(u[0]) && !IsSpace(u[|u| - 1]))
    ensures Trim(s) == u
  {
    TrimSlice(s);
    SpaceAroundUnique(s, u, i, Trim(s), |s| - |TrimStart(s)|);
  }

  lemma SpaceAroundUnique(s: string, u: string, i: int, r: string, j: int)
    requires SpaceAround(s, u, i) && SpaceAround(s, r, j)
    requires u == [] || (!IsSpace(u[0]) && !IsSpace(u[|u| - 1]))
    requires r == [] || (!IsSpace(r[0]) && !IsSpace(r[|r| - 1]))
    ensures u == r
  {
    if r != [] {
      assert s[j] == r[0];
    }
    if u != [] {
      assert s[i] == u[0];
    }
    if u != [] && r != [] {
      assert i == j;
      assert s[i + |u| - 1] == u[|u| - 1] && s[j + |r| - 1] == r[|r| - 1];
      assert |u| == |r|;
    }
  }

  /** The leading run of `c` removed. */
  function StripLeading(s: string, c: char): (r: string)
    ensures |r| <= |s| && r == s[|s| - |r|..]
    ensures r == [] || r[0] != c
  {
    if s != [] && s[0] == c then
      var r := StripLeading(s[1..], c);
      assert s[1..][|s| - 1 - |r|..] == s[|s| - |r|..];
      r
    else s
  }

  /** Only `c` comes before what `StripLeading` keeps. */
  lemma {:induction false} StripLeadingRun(s: string, c: char)
    ensures forall k :: 0 <= k < |s| - |StripLeading(s, c)| ==> s[k] == c
  {
    if s != [] && s[0] == c {
      StripLeadingRun(s[1..], c);
      forall k | 0 < k < |s| - |StripLeading(s, c)| ensures s[k] == c {
        assert s[k] == s[1..][k - 1];
      }
    }
  }

  /** The trailing run of `c` removed. */
  function StripTrailing(s: string, c: char): (r: string)
    ensures r <= s
    ensures r == [] || r[|r| - 1] != c
  {
    if s != [] && s[|s| - 1] == c then StripTrailing(s[..|s| - 1], c) else s
  }

  /** Only `c` comes after what `StripTrailing` keeps. */
  lemma {:induction false} StripTrailingRun(s: string, c: char)
    ensures forall k :: |StripTrailing(s, c)| <= k < |s| ==> s[k] == c
  {
    if s != [] && s[|s| - 1] == c {
      StripTrailingRun(s[..|s| - 1], c);
      forall k | |StripTrailing(s, c)| <= k < |s| - 1 ensures s[k] == c {
        assert s[k] == s[..|s| - 1][k];
      }
    }
  }

  /** `r` is the slice of `s` from `i`, and everything of `s` outside it is `c`. */
  predicate RunsAround(s: string, r: string, i: int, c: char) {
    && 0 <= i && i + |r| <= |s| && r == s[i..i + |r|]
    && (forall k :: 0 <= k < i ==> s[k] == c)
    && (forall k :: i + |r| <= k < |s| ==> s[k] == c)
  }

  /** `s.replace(/^c+|c+$/g, "")`. */
  function Strip(s: string, c: char): (r: string)
    ensures r == [] || (r[0] != c && r[|r| - 1] != c)
  {
    StripTrailing(StripLeading(s, c), c)
  }

  /** Stripping gives a slice of the input with only `c` outside it. */
  lemma {:induction false} StripSlice(s: string, c: char)
    ensures RunsAround(s, Strip(s, c), |s| - |StripLeading(s, c)|, c)
  {
    var t := StripLeading(s, c);
    var r := StripTrailing(t, c);
    StripLeadingRun(s, c);
    StripTrailingRun(t, c);
    RunsAroundOf(s, t, r, c);
    assert Strip(s, c) == r;
  }

  /** A run of `c` before a suffix `t` of `s`, and a run of `c` after a prefix `r` of `t`, leave `r` with `c` all around it in `s`. */
  lemma RunsAroundOf(s: string, t: string, r: string, c: char)
    requires |t| <= |s| && t == s[|s| - |t|..] && r <= t
    requires forall k :: 0 <= k < |s| - |t| ==> s[k] == c
    requires forall k :: |r| <= k < |t| ==> t[k] == c
    ensures RunsAround(s, r, |s| - |t|, c)
  {
    PrefixOfSuffix(s, t, r);
  }

  /** Only one slice of `s` has `c` all around it and none at its ends, so the stripped text is that slice. */
  lemma {:induction false} StripUnique(s: string, c: char, u: string, i: int)
    requires RunsAround(s, u, i, c)
    requires u == [] || (u[0] != c && u[|u| - 1] != c)
    ensures Strip(s, c) == u
  {
    StripSlice(s, c);
    RunsAroundUnique(s, c, u, i, Strip(s, c), |s| - |StripLeading(s, c)|);
  }

  lemma RunsAroundUnique(s: string, c: char, u: string, i: int, r: string, j: int)
    requires RunsAround(s, u, i, c) && RunsAround(s, r, j, c)
    requires u == [] || (u[0] != c && u[|u| - 1] != c)
    requires r == [] || (r[0] != c && r[|r| - 1] != c)
    ensures u == r
  {
    if r != [] {
      assert s[j] == r[0];
    }
    if u != [] {
      assert s[i] == u[0];
    }
    if u != [] && r != [] {
      assert i == j;
      assert s[i + |u| - 1] == u[|u| - 1] && s[j + |r| - 1] == r[|r| - 1];
      assert |u| == |r|;
    }
  }

  lemma StripFixes(s: string, c: char)
    requires s == [] || (s[0] != c && s[|s| - 1] != c)
    ensures Strip(s, c) == s
  {
  }

  /** `s.replace(/c/g, rep)`. */
  function ReplaceAll(s: string, c: char, rep: string): string {
    if s == [] then [] else (if s[0] == c then rep else [s[0]]) + ReplaceAll(s[1..], c, rep)
  }

  lemma {:induction false} ReplaceAllConcat(a: string, b: string, c: char, rep: string)
    ensures ReplaceAll(a + b, c, rep) == ReplaceAll(a, c, rep) + ReplaceAll(b, c, rep)
  {
    if a != [] {
      assert (a + b)[1..] == a[1..] + b;
      ReplaceAllConcat(a[1..], b, c, rep);
    } else {
      assert a + b == b;
    }
  }

  lemma {:induction false} ReplaceAllRemoves(s: string, c: char)
    ensures c !in ReplaceAll(s, c, [])
  {
    if s != [] {
      ReplaceAllRemoves(s[1..], c);
    }
  }

  /** A text without `c` is left as it is. */
  lemma {:induction false} ReplaceAllAbsent(s: string, c: char, rep: string)
    requires c !in s
    ensures ReplaceAll(s, c, rep) == s
  {
    if s != [] {
      assert c !in s[1..];
      ReplaceAllAbsent(s[1..], c, rep);
      assert [s[0]] + s[1..] == s;
    }
  }

  /** `s.split(d)`: the pieces between occurrences of `d`, one more than there are `d`s. */
  function Split(s: string, d: char): (parts: seq<string>)
    ensures |parts| >= 1
    ensures forall j :: 0 <= j < |parts| ==> d !in parts[j]
    decreases |s|
  {
    if s == [] then [[]]
    else
      var tail := Split(s[1..], d);
      if s[0] == d then [[]] + tail else [[s[0]] + tail[0]] + tail[1..]
  }

  /** There are at least two pieces exactly when the separator occurs. */
  lemma {:induction false} SplitMany(s: string, d: char)
    ensures |Split(s, d)| >= 2 <==> d in s
    decreases |s|
  {
    if s != [] {
      SplitMany(s[1..], d);
      assert d in s <==> s[0] == d || d in s[1..];
    }
  }

  /** `parts.join(d)`. */
  function Join(parts: seq<string>, d: char): string {
    if parts == [] then [] else if |parts| == 1 then parts[0] else parts[0] + [d] + Join(parts[1..], d)
  }

  /** Splitting and joining again gives back the text. */
  lemma {:induction false} JoinSplit(s: string, d: char)
    ensures Join(Split(s, d), d) == s
    decreases |s|
  {
    if s != [] {
      JoinSplit(s[1..], d);
      var tail := Split(s[1..], d);
      if s[0] == d {
        assert ([[]] + tail)[1..] == tail;
      } else if |tail| > 1 {
        var parts := [[s[0]] + tail[0]] + tail[1..];
        assert parts[1..] == tail[1..];
        assert Join(tail, d) == tail[0] + [d] + Join(tail[1..], d);
      }
    }
  }

  lemma {:induction false} SplitPrefix(a: string, b: string, d: char)
    requires d !in a
    ensures Split(a + b, d) == [a + Split(b, d)[0]] + Split(b, d)[1..]
    decreases |a|
  {
    if a != [] {
      assert (a + b)[1..] == a[1..] + b;
      SplitPrefix(a[1..], b, d);
      assert [a[0]] + (a[1..] + Split(b, d)[0]) == a + Split(b, d)[0];
    } else {
      assert a + b == b;
      var parts := Split(b, d);
      assert a + parts[0] == parts[0];
      assert [parts[0]] + parts[1..] == parts;
    }
  }

  /** A piece without the separator, then the separator: the piece comes first in the split. */
  lemma SplitCons(a: string, rest: string, d: char)
    requires d !in a
    ensures Split(a + [d] + rest, d) == [a] + Split(rest, d)
  {
    assert a + [d] + rest == a + ([d] + rest);
    SplitPrefix(a, [d] + rest, d);
    assert ([d] + rest)[1..] == rest;
    assert a + [] == a;
  }

  /** Joining pieces that do not contain the separator and splitting again gives back the pieces. */
  lemma {:induction false} SplitJoin(parts: seq<string>, d: char)
    requires |parts| >= 1
    requires forall p <- parts :: d !in p
    ensures Split(Join(parts, d), d) == parts
    decreases |parts|
  {
    if |parts| == 1 {
      SplitPrefix(parts[0], [], d);
      assert parts[0] + [] == parts[0];
    } else {
      var rest := Join(parts[1..], d);
      SplitJoin(parts[1..], d);
      assert Join(parts, d) == parts[0] + ([d] + rest);
      SplitPrefix(parts[0], [d] + rest, d);
      var tail := Split([d] + rest, d);
      assert tail == [[]] + Split(rest, d) by {
        assert ([d] + rest)[1..] == rest;
      }
      assert tail[0] == [] && tail[1..] == parts[1..];
      assert parts[0] + tail[0] == parts[0];
      assert [parts[0]] + parts[1..] == parts;
    }
  }

  /** Two pieces without the separator, joined by it, split back into the two. */
  lemma SplitJoinTwo(a: string, b: string, d: char)
    requires d !in a && d !in b
    ensures Split(a + [d] + b, d) == [a, b]
  {
    assert Join([a, b], d) == a + [d] + b by {
      assert [a, b][1..] == [b];
    }
    SplitJoin([a, b], d);
  }

  lemma {:induction false} JoinAppend(a: seq<string>, b: seq<string>, d: char)
    requires a != [] && b != []
    ensures Join(a + b, d) == Join(a, d) + [d] + Join(b, d)
    decreases |a|
  {
    if |a| == 1 {
      assert (a + b)[1..] == b;
    } else {
      assert (a + b)[1..] == a[1..] + b;
      JoinAppend(a[1..], b, d);
    }
  }

  /** A joined text holds a character other than the separator only where some piece holds it. */
  lemma {:induction false} JoinAvoids(parts: seq<string>, d: char, c: char)
    requires c != d
    requires forall p <- parts :: c !in p
    ensures c !in Join(parts, d)
    decreases |parts|
  {
    if |parts| > 1 {
      JoinAvoids(parts[1..], d, c);
    }
  }
}
