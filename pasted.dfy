/**
  The plain-text extractor on a pasted block: which lines open a record, what
  a block of one start line and two field lines gives, and the worked example
  `mail 1800 MX` / `Priority: 10` / `Destination: mail.example.com`.
 */
module Pasted {
  import opened Wrappers
  import opened Text
  import opened Pattern
  import opened Names
  import opened Records
  import opened PlainText
  import opened Listings
  import opened Scenarios

  // ---- Start lines ----

  /** A run of class `k` that fills `x` exactly, found at `p`, then the rest of the pattern. */
  lemma RunAt(s: string, p: nat, x: string, run: Piece, rest: seq<Piece>, caps: seq<string>)
    requires p + |x| <= |s| && s[p..p + |x|] == x
    requires run.Run? && |x| >= run.min && OfClass(x, run.cls)
    requires p + |x| == |s| || !InClass(s[p + |x|], run.cls)
    requires MatchAt(s, p + |x|, rest) == Some(caps)
    ensures MatchAt(s, p, [run] + rest) == Some((if run.capture then [x] else []) + caps)
  {
    assert AllIn(s, p, p + |x|, run.cls) by {
      forall m | p <= m < p + |x| ensures InClass(s[m], run.cls) {
        assert s[m] == x[m - p];
      }
    }
    GreedyRun(s, p, run, rest, |x|);
  }

  /** A single blank before a character that is not one, then the rest of the pattern. */
  lemma BlankAt(s: string, p: nat, rest: seq<Piece>, caps: seq<string>)
    requires p + 1 < |s| && s[p] == ' ' && !IsSpace(s[p + 1])
    requires MatchAt(s, p + 1, rest) == Some(caps)
    ensures MatchAt(s, p, [Run(SpaceClass, 1, false)] + rest) == Some(caps)
  {
    RunAt(s, p, " ", Run(SpaceClass, 1, false), rest, caps);
    assert [] + caps == caps;
  }

  predicate WordText(w: string) {
    w != [] && forall i :: 0 <= i < |w| ==> IsWordChar(w[i])
  }

  /** `s` is `name`, a blank, `ttl`, a blank and `word`, read off slice by slice. */
  predicate Laid(s: string, name: string, ttl: string, word: string) {
    && |s| == |name| + |ttl| + |word| + 2
    && s[..|name|] == name && s[|name|] == ' '
    && s[|name| + 1..|name| + 1 + |ttl|] == ttl && s[|name| + 1 + |ttl|] == ' '
    && s[|name| + 2 + |ttl|..] == word
  }

  lemma LaidOut(name: string, ttl: string, word: string)
    ensures Laid(name + " " + ttl + " " + word, name, ttl, word)
  {
  }

  /** The type word ends the line, a word boundary after it. */
  lemma WordLast(s: string, p: nat, word: string)
    requires p + |word| == |s| && s[p..] == word && WordText(word)
    ensures MatchAt(s, p, [Run(WordClass, 1, true), WordBoundary]) == Some([word])
  {
    assert s[|s| - 1] == word[|word| - 1];
    assert BoundaryAt(s, |s|);
    assert [WordBoundary][1..] == [];
    assert s[p..p + |word|] == word;
    RunAt(s, p, word, Run(WordClass, 1, true), [WordBoundary], []);
    assert [Run(WordClass, 1, true)] + [WordBoundary] == [Run(WordClass, 1, true), WordBoundary];
    assert [word] + [] == [word];
  }

  /** From the blank after the TTL: the type word and the boundary after it. */
  lemma WordOnwards(s: string, name: string, ttl: string, word: string)
    requires Laid(s, name, ttl, word) && WordText(word)
    ensures MatchAt(s, |name| + 1 + |ttl|, [Run(SpaceClass, 1, false), Run(WordClass, 1, true), WordBoundary]) == Some([word])
  {
    var p := |name| + 1 + |ttl|;
    WordLast(s, p + 1, word);
    assert s[p + 1] == word[0];
    BlankAt(s, p, [Run(WordClass, 1, true), WordBoundary], [word]);
    assert [Run(SpaceClass, 1, false)] + [Run(WordClass, 1, true), WordBoundary]
        == [Run(SpaceClass, 1, false), Run(WordClass, 1, true), WordBoundary];
  }

  /** From the blank after the name: the TTL and what follows it. */
  lemma TtlOnwards(s: string, name: string, ttl: string, word: string, tail: seq<Piece>)
    requires Laid(s, name, ttl, word) && IsDigits(ttl)
    requires MatchAt(s, |name| + 1 + |ttl|, tail) == Some([word])
    ensures MatchAt(s, |name|, [Run(SpaceClass, 1, false)] + ([Run(DigitClass, 1, true)] + tail)) == Some([ttl, word])
  {
    var p := |name| + 1;
    RunAt(s, p, ttl, Run(DigitClass, 1, true), tail, [word]);
    assert [ttl] + [word] == [ttl, word];
    assert s[p] == ttl[0];
    BlankAt(s, |name|, [Run(DigitClass, 1, true)] + tail, [ttl, word]);
  }

  /** A `name ttl TYPE` line with single blanks matches the start pattern, its three parts the groups. */
  lemma StartLineAt(name: string, ttl: string, word: string)
    requires IsToken(name) && IsDigits(ttl) && WordText(word)
    ensures MatchStart(name + " " + ttl + " " + word) == Some((name, ttl, word))
  {
    var s := name + " " + ttl + " " + word;
    LaidOut(name, ttl, word);
    var tail := [Run(SpaceClass, 1, false), Run(WordClass, 1, true), WordBoundary];
    WordOnwards(s, name, ttl, word);
    TtlOnwards(s, name, ttl, word, tail);
    var rest := [Run(SpaceClass, 1, false)] + ([Run(DigitClass, 1, true)] + tail);
    assert s[0..|name|] == name;
    RunAt(s, 0, name, Run(NonSpaceClass, 1, true), rest, [ttl, word]);
    assert [name] + [ttl, word] == [name, ttl, word];
    StartHead();
  }

  lemma StartHead()
    ensures StartPattern == [Run(NonSpaceClass, 1, true)] + ([Run(SpaceClass, 1, false)] + ([Run(DigitClass, 1, true)]
      + [Run(SpaceClass, 1, false), Run(WordClass, 1, true), WordBoundary]))
  {
  }

  /** One step of a match: a run of its class, then the rest of the pattern. */
  lemma RunStep(s: string, pos: nat, ps: seq<Piece>, caps: seq<string>) returns (e: nat, more: seq<string>)
    requires ps != [] && ps[0].Run? && Matches(s, pos, ps, caps)
    ensures pos + ps[0].min <= e <= |s| && AllIn(s, pos, e, ps[0].cls) && Matches(s, e, ps[1..], more)
  {
    var p := ps[0];
    e :| pos + p.min <= e && AllIn(s, pos, e, p.cls) &&
      if p.capture then caps != [] && caps[0] == s[pos..e] && Matches(s, e, ps[1..], caps[1..])
      else Matches(s, e, ps[1..], caps);
    more := if p.capture then caps[1..] else caps;
  }

  /** A start line has two blanks: the ones before and after its TTL. */
  lemma StartBlanks(line: string, caps: seq<string>) returns (i: nat, j: nat)
    requires Matches(line, 0, StartPattern, caps)
    ensures i < j < |line| && IsSpace(line[i]) && IsSpace(line[j])
  {
    var ps := StartPattern;
    assert ps[1..][1..] == ps[2..] && ps[2..][1..] == ps[3..];
    var e1, c1 := RunStep(line, 0, ps, caps);
    var e2, c2 := RunStep(line, e1, ps[1..], c1);
    var e3, c3 := RunStep(line, e2, ps[2..], c2);
    var e4, c4 := RunStep(line, e3, ps[3..], c3);
    i, j := e1, e3;
  }

  /** At most one whitespace character. */
  predicate OneBlank(line: string) {
    forall i, j :: 0 <= i < j < |line| && IsSpace(line[i]) ==> !IsSpace(line[j])
  }

  /** A line with at most one blank never opens a record. */
  lemma OneBlankNotStart(line: string, idx: nat)
    requires OneBlank(line)
    ensures MatchStart(line).None? && StartOf(line, idx).None?
  {
    if MatchStart(line).Some? {
      MatchStartSpec(line);
      var r := MatchStart(line).value;
      GreedyMatches(line, 0, StartPattern, [r.0, r.1, r.2]);
      var i, j := StartBlanks(line, [r.0, r.1, r.2]);
      assert false;
    }
  }

  // ---- A block of three lines ----

  /** A line of a pasted block: no line break in it, trimmed already. */
  predicate Pasted(line: string) {
    '\n' !in line && '\r' !in line && Trimmed(line)
  }

  lemma TrimmedFixed(a: string)
    requires Trimmed(a)
    ensures Trim(a) == a
  {
    TrimUnique(a, a, 0);
  }

  lemma TripleOf<T>(xs: seq<T>, a: T, b: T, c: T)
    requires |xs| == 3 && xs[0] == a && xs[1] == b && xs[2] == c
    ensures xs == [a, b, c]
  {
  }

  /** Three pasted lines joined by line breaks read back as those lines. */
  lemma ThreeLines(a: string, b: string, c: string)
    requires Pasted(a) && Pasted(b) && Pasted(c)
    ensures Lines(a + "\n" + b + "\n" + c) == [a, b, c]
  {
    SplitThree(a, b, c);
    TrimmedFixed(a);
    TrimmedFixed(b);
    TrimmedFixed(c);
    LinesOfTrimmed(a + "\n" + b + "\n" + c, a, b, c);
  }

  /** A text whose three pieces are trimmed already reads back as those pieces. */
  lemma LinesOfTrimmed(text: string, a: string, b: string, c: string)
    requires Split(ReplaceAll(text, '\r', []), '\n') == [a, b, c]
    requires Trim(a) == a && Trim(b) == b && Trim(c) == c
    ensures Lines(text) == [a, b, c]
  {
    var lines := Lines(text);
    assert lines[0] == a && lines[1] == b && lines[2] == c;
    TripleOf(lines, a, b, c);
  }

  lemma SplitThree(a: string, b: string, c: string)
    requires Pasted(a) && Pasted(b) && Pasted(c)
    ensures Split(ReplaceAll(a + "\n" + b + "\n" + c, '\r', []), '\n') == [a, b, c]
  {
    var text := a + "\n" + b + "\n" + c;
    assert text == a + ['\n'] + (b + ['\n'] + c);
    NoReturn(a, b, c);
    ReplaceAllAbsent(text, '\r', []);
    SplitCons(a, b + ['\n'] + c, '\n');
    SplitJoinTwo(b, c, '\n');
  }

  lemma NoReturn(a: string, b: string, c: string)
    requires '\r' !in a && '\r' !in b && '\r' !in c
    ensures '\r' !in a + "\n" + b + "\n" + c
  {
  }

  /** Only the first of three lines is a start line: that start is the only one. */
  lemma OneStart(l0: string, l1: string, l2: string, s0: Start)
    requires StartOf(l0, 0) == Some(s0) && StartOf(l1, 1).None? && StartOf(l2, 2).None?
    ensures Starts([l0, l1, l2]) == [s0]
  {
    var m := Marks([l0, l1, l2]);
    TripleOf(m, Some(s0), None, None);
    FirstOfThree(s0);
  }

  lemma FirstOfThree<T>(x: T)
    ensures Somes([Some(x), None, None]) == [x]
  {
    var m := [Some(x), None, None];
    assert m[..|m| - 1] == [Some(x), None];
    assert [Some(x), None][..1] == [Some(x)];
    assert [Some(x)][..0] == [];
    assert Somes([Some(x)]) == [x];
    assert Somes([Some(x), None]) == [x];
  }

  /**
    A start line followed by two kept lines that are not start lines: one
    block, in the domain the override or the start's name gives, with the
    record those two lines give.
   */
  lemma OneBlock(l0: string, l1: string, l2: string, s0: Start, domainOverride: string, defaultTtl: string)
    requires Pasted(l0) && Pasted(l1) && Pasted(l2)
    requires StartOf(l0, 0) == Some(s0) && StartOf(l1, 1).None? && StartOf(l2, 2).None?
    requires Kept(l1) && Kept(l2)
    ensures && (forall b <- [l1, l2] :: b != [])
            && var domain := SanitizeDomain(domainOverride, GetBaseDomain(s0.name));
               Extract(l0 + "\n" + l1 + "\n" + l2, domainOverride, defaultTtl)
               == Parsed(domain, AsList(RecordOf(s0, [l1, l2], domain, defaultTtl)))
  {
    var lines := [l0, l1, l2];
    NonEmptyPair(l1, l2);
    ThreeLines(l0, l1, l2);
    OneStart(l0, l1, l2, s0);
    ExtractOf(l0 + "\n" + l1 + "\n" + l2, lines, [s0], domainOverride, defaultTtl);
    OneOutcome(lines, s0, SanitizeDomain(domainOverride, GetBaseDomain(s0.name)), defaultTtl);
  }

  /** The extractor on a text whose lines and starts are known. */
  lemma ExtractOf(text: string, lines: seq<string>, starts: seq<Start>, domainOverride: string, defaultTtl: string)
    requires Lines(text) == lines && Starts(lines) == starts && starts != []
    ensures Ordered(starts, |lines|)
    ensures var domain := SanitizeDomain(domainOverride, GetBaseDomain(starts[0].name));
      Extract(text, domainOverride, defaultTtl) == Parsed(domain, Somes(Outcomes(lines, starts, domain, defaultTtl)))
  {
    StartsOrdered(lines);
  }

  /** The one start of three lines owns the other two, and gives what they give. */
  lemma OneOutcome(lines: seq<string>, s0: Start, domain: string, defaultTtl: string)
    requires |lines| == 3 && s0.idx == 0 && Kept(lines[1]) && Kept(lines[2])
    ensures Ordered([s0], 3)
    ensures Somes(Outcomes(lines, [s0], domain, defaultTtl)) == AsList(RecordOf(s0, lines[1..], domain, defaultTtl))
  {
    assert Ordered([s0], 3);
    TwoKept(lines);
    var os := Outcomes(lines, [s0], domain, defaultTtl);
    assert os[0] == RecordOf(s0, lines[1..], domain, defaultTtl);
    SomesSingle(os);
  }

  lemma TwoKept(lines: seq<string>)
    requires |lines| == 3 && Kept(lines[1]) && Kept(lines[2])
    ensures KeepBody(lines[1..3]) == lines[1..]
  {
    var l1, l2 := lines[1], lines[2];
    assert lines[1..3] == [l1] + [l2] == lines[1..];
    KeepBodyConcat([l1], [l2]);
    KeepBodyOne(l1);
    KeepBodyOne(l2);
  }

  lemma SomesSingle<T>(os: seq<Option<T>>)
    requires |os| == 1
    ensures Somes(os) == AsList(os[0])
  {
    assert os[..0] == [];
  }

  // ---- Field lines ----

  /** `Caption: value` has one blank, and is trimmed and kept. */
  lemma FieldLineFacts(caption: string, v: string)
    requires caption != [] && v != [] && NoSpace(caption) && NoSpace(v)
    ensures var l := FieldLine(caption, v); OneBlank(l) && Pasted(l) && Kept(l)
  {
    var l := FieldLine(caption, v);
    var n := |caption|;
    forall m | 0 <= m < |l| && m != n ensures !IsSpace(l[m]) {
      if m < n { assert l[m] == caption[m]; } else { assert l[m] == v[m - n - 1]; }
    }
    assert l[0] == caption[0] && l[|l| - 1] == v[|v| - 1];
    assert ToLower(l)[n] == ' ';
    assert ' ' !in "actions";
  }

  // ---- The worked example ----

  /** `name ttl MX` is a pasted line that opens an MX block for `name` with that TTL. */
  lemma MxStartLine(name: string, ttl: string)
    requires IsToken(name) && IsDigits(ttl)
    ensures var l := name + " " + ttl + " " + "MX"; StartOf(l, 0) == Some(Start(0, name, ttl, MX)) && Pasted(l)
  {
    assert WordText("MX") && Pasted("MX");
    StartLineAt(name, ttl, "MX");
    assert ToUpper("MX") == "MX";
    DigitsToken(ttl);
    TokenPasted(name);
    TokenPasted(ttl);
    BlankJoin(name, ttl);
    BlankJoin(name + " " + ttl, "MX");
  }

  lemma MxCaptionTokens()
    ensures IsToken("Priority:") && IsToken("Destination:")
  {
  }

  lemma MailStartParts()
    ensures IsToken("mail") && IsDigits("1800") && IsDigits("10")
  {
  }

  /** A token is a pasted line. */
  lemma TokenPasted(w: string)
    requires IsToken(w)
    ensures Pasted(w)
  {
    forall i | 0 <= i < |w| ensures w[i] != '\n' && w[i] != '\r' {
      assert !IsSpace(w[i]);
    }
  }

  lemma DigitsToken(d: string)
    requires IsDigits(d)
    ensures IsToken(d)
  {
    forall i | 0 <= i < |d| ensures !IsSpace(d[i]) {
      assert IsDigit(d[i]);
    }
  }

  /** Two pasted texts joined by a blank make a pasted line. */
  lemma BlankJoin(a: string, b: string)
    requires a != [] && b != [] && Pasted(a) && Pasted(b)
    ensures Pasted(a + " " + b)
  {
    var l := a + " " + b;
    assert l[0] == a[0] && l[|l| - 1] == b[|b| - 1];
  }

  /** `Caption: value` is a kept body line that is not a start line. */
  lemma FieldBodyLine(caption: string, v: string, idx: nat)
    requires IsToken(caption) && IsToken(v)
    ensures var l := FieldLine(caption, v); Pasted(l) && Kept(l) && StartOf(l, idx).None?
  {
    FieldLineFacts(caption, v);
    OneBlankNotStart(FieldLine(caption, v), idx);
  }

  /**
    A pasted MX block, `name ttl MX`, `Priority: p`, `Destination: d`, gives
    one MX record: the name made absolute in the block's domain, the TTL, and
    the priority with the absolute destination.
   */
  lemma MxBlock(name: string, ttl: string, priority: string, destination: string, domainOverride: string, defaultTtl: string)
    requires IsToken(name) && IsDigits(ttl) && IsDigits(priority) && IsToken(destination) && ':' !in destination
    ensures var domain := SanitizeDomain(domainOverride, GetBaseDomain(name));
      var fqdn := ToAbsoluteName(name, domain);
      Extract(name + " " + ttl + " " + "MX" + "\n" + FieldLine("Priority:", priority) + "\n" + FieldLine("Destination:", destination),
              domainOverride, defaultTtl)
      == Parsed(domain, [Record(fqdn, ttl, "MX", priority + " " + ToFqdn(destination), InferCfTagAsWritten(fqdn, domain))])
  {
    MxExtract(name, ttl, priority, destination, domainOverride, defaultTtl);
    MxRecord(name, ttl, priority, destination, SanitizeDomain(domainOverride, GetBaseDomain(name)), defaultTtl);
  }

  /** An MX block is one block, with the record its two field lines give. */
  lemma MxExtract(name: string, ttl: string, priority: string, destination: string, domainOverride: string, defaultTtl: string)
    requires IsToken(name) && IsDigits(ttl) && IsDigits(priority) && IsToken(destination)
    ensures var domain := SanitizeDomain(domainOverride, GetBaseDomain(name));
      && (forall b <- [FieldLine("Priority:", priority), FieldLine("Destination:", destination)] :: b != [])
      && Extract(name + " " + ttl + " " + "MX" + "\n" + FieldLine("Priority:", priority) + "\n" + FieldLine("Destination:", destination),
              domainOverride, defaultTtl)
      == Parsed(domain, AsList(RecordOf(Start(0, name, ttl, MX), [FieldLine("Priority:", priority), FieldLine("Destination:", destination)],
                                        domain, defaultTtl)))
  {
    var l0, l1, l2 := name + " " + ttl + " " + "MX", FieldLine("Priority:", priority), FieldLine("Destination:", destination);
    FieldLinePair("Priority:", priority, "Destination:", destination);
    MxLines(name, ttl, priority, destination);
    OneBlock(l0, l1, l2, Start(0, name, ttl, MX), domainOverride, defaultTtl);
  }

  /** The record of an MX block: its name made absolute, its TTL, the priority and the absolute destination. */
  lemma MxRecord(name: string, ttl: string, priority: string, destination: string, domain: string, defaultTtl: string)
    requires IsDigits(ttl) && IsDigits(priority) && IsToken(destination) && ':' !in destination
    ensures var fqdn := ToAbsoluteName(name, domain);
      && (forall b <- [FieldLine("Priority:", priority), FieldLine("Destination:", destination)] :: b != [])
      && RecordOf(Start(0, name, ttl, MX), [FieldLine("Priority:", priority), FieldLine("Destination:", destination)], domain, defaultTtl)
         == Some(Record(fqdn, ttl, "MX", priority + " " + ToFqdn(destination), InferCfTagAsWritten(fqdn, domain)))
  {
    var body, value := [FieldLine("Priority:", priority), FieldLine("Destination:", destination)], priority + " " + ToFqdn(destination);
    FieldLinePair("Priority:", priority, "Destination:", destination);
    MxFieldsValue(priority, destination);
    assert ttl != [] && value != [] && TypeName(MX) == "MX";
    RecordOfValue(name, ttl, MX, body, domain, defaultTtl, value);
  }

  lemma NonEmptyPair(a: string, b: string)
    requires a != [] && b != []
    ensures forall x <- [a, b] :: x != []
  {
  }

  lemma FieldLinePair(c1: string, v1: string, c2: string, v2: string)
    ensures forall b <- [FieldLine(c1, v1), FieldLine(c2, v2)] :: b != []
  {
    assert |FieldLine(c1, v1)| > 0 && |FieldLine(c2, v2)| > 0;
  }

  /** The three lines of an MX block: pasted, the first a start line, the other two kept body lines. */
  lemma MxLines(name: string, ttl: string, priority: string, destination: string)
    requires IsToken(name) && IsDigits(ttl) && IsDigits(priority) && IsToken(destination)
    ensures var l0, l1, l2 := name + " " + ttl + " " + "MX", FieldLine("Priority:", priority), FieldLine("Destination:", destination);
      && Pasted(l0) && Pasted(l1) && Pasted(l2)
      && StartOf(l0, 0) == Some(Start(0, name, ttl, MX)) && StartOf(l1, 1).None? && StartOf(l2, 2).None?
      && Kept(l1) && Kept(l2)
  {
    MxStartLine(name, ttl);
    DigitsToken(priority);
    MxCaptionTokens();
    FieldBodyLine("Priority:", priority, 1);
    FieldBodyLine("Destination:", destination, 2);
  }

  /** The two field lines of an MX block give the priority and the absolute destination. */
  lemma MxFieldsValue(priority: string, destination: string)
    requires IsDigits(priority) && IsToken(destination) && ':' !in destination
    ensures ValueOf(MX, [FieldLine("Priority:", priority), FieldLine("Destination:", destination)]) == priority + " " + ToFqdn(destination)
  {
    var l1, l2 := FieldLine("Priority:", priority), FieldLine("Destination:", destination);
    JoinPair(l1, l2, ' ');
    MxValueOfListing(priority, destination);
    MxValueIs([l1, l2], MxListing(priority, destination), priority + " " + ToFqdn(destination));
  }

  /** A start with a TTL and a value gives the record of those, named absolutely in the domain. */
  lemma RecordOfValue(name: string, ttl: string, t: RType, body: seq<string>, domain: string, defaultTtl: string, value: string)
    requires forall b <- body :: b != []
    requires ttl != [] && ValueOf(t, body) == value && value != []
    ensures var fqdn := ToAbsoluteName(name, domain);
      RecordOf(Start(0, name, ttl, t), body, domain, defaultTtl) == Some(Record(fqdn, ttl, TypeName(t), value, InferCfTagAsWritten(fqdn, domain)))
  {
  }

  /** `mail` in `example.com` is `mail.example.com.`. */
  lemma MailName()
    ensures ToAbsoluteName("mail", "example.com") == "mail" + "." + "example.com" + "."
  {
    assert "mail" != "@";
    AbsoluteUnder("mail", "example.com");
  }

  /** The override `example.com` is a valid domain and is kept. */
  lemma ExampleDomain(name: string)
    ensures SanitizeDomain("example.com", GetBaseDomain(name)) == "example.com"
  {
    ValidExample();
    SanitizeFixesValid("example.com", GetBaseDomain(name));
  }

  lemma JoinPair(a: string, b: string, d: char)
    ensures Join([a, b], d) == a + [d] + b
  {
    assert [a, b][1..] == [b];
  }

  /** Body lines whose joined text holds the MX fields give the value those fields make. */
  lemma MxValueIs(body: seq<string>, text: string, v: string)
    requires forall b <- body :: b != []
    requires Join(body, ' ') == text && MxValue(text) == Some(v)
    ensures ValueOf(MX, body) == v
  {
    ValueOfMx(body);
    MxBodyIs(body, text, v);
  }

  lemma ValueOfMx(body: seq<string>)
    requires forall b <- body :: b != []
    ensures ValueOf(MX, body) == MxBody(body)
  {
  }

  lemma MxBodyIs(body: seq<string>, text: string, v: string)
    requires forall b <- body :: b != []
    requires Join(body, ' ') == text && MxValue(text) == Some(v)
    ensures MxBody(body) == v
  {
  }

  /**
    The pasted block `mail 1800 MX`, `Priority: 10`, `Destination:
    mail.example.com` with the override `example.com` gives one MX record:
    `mail.example.com.`, TTL 1800, value `10 mail.example.com.`, not proxied.
   */
  lemma MailPaste()
    ensures Extract(("mail" + " " + "1800" + " " + "MX") + "\n" + ("Priority:" + " " + "10") + "\n"
                    + ("Destination:" + " " + "mail.example.com"), "example.com", "3600")
            == Parsed("example.com", [Record("mail" + "." + "example.com" + ".", "1800", "MX", "10" + " " + ("mail.example.com" + "."), false)])
  {
    MailStartParts();
    MailHost();
    MxBlock("mail", "1800", "10", "mail.example.com", "example.com", "3600");
    ExampleDomain("mail");
    MailName();
    MailNotProxied();
  }
}
