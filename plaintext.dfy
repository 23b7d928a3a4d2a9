/**
  The extractor for records copied out of the cPanel zone editor as plain
  text: start lines `<name> <ttl> <TYPE>` open a block, and the block's
  remaining lines give the record's value.
 */
module PlainText {
  import opened Wrappers
  import opened Text
  import opened Names
  import opened Pattern
  import opened Quoting
  import opened Records

  predicate Trimmed(s: string) {
    s == [] || (!IsSpace(s[0]) && !IsSpace(s[|s| - 1]))
  }

  /** `String(text).replace(/\r/g, "").split("\n").map(trim)`. */
  function Lines(text: string): (lines: seq<string>)
    ensures |lines| >= 1
    ensures forall i :: 0 <= i < |lines| ==> Trimmed(lines[i])
  {
    var raw := Split(ReplaceAll(text, '\r', []), '\n');
    seq(|raw|, i requires 0 <= i < |raw| => Trim(raw[i]))
  }

  /** A start line found at line `idx`, with its name, TTL and upper-cased type. */
  datatype Start = Start(idx: nat, name: string, ttl: string, rtype: RType)

  /** `line.match(/^(\S+)\s+(\d+)\s+(A|AAAA|CNAME|MX|SRV|TXT|CAA)\b/i)`, the keyword upper-cased. */
  function StartOf(line: string, idx: nat): (r: Option<Start>)
    ensures r.Some? ==> r.value.idx == idx && IsToken(r.value.name) && IsDigits(r.value.ttl)
  {
    match MatchStart(line)
    case Some((name, ttl, word)) =>
      (match ParseType(ToUpper(word))
       case Some(t) => Some(Start(idx, name, ttl, t))
       case None => None)
    case None => None
  }

  /** What the start-line test says about each line, in line order. */
  function Marks(lines: seq<string>): (marks: seq<Option<Start>>)
    ensures |marks| == |lines| && Indexed(marks)
    ensures forall i :: 0 <= i < |lines| ==> marks[i] == StartOf(lines[i], i)
  {
    seq(|lines|, i requires 0 <= i < |lines| => StartOf(lines[i], i))
  }

  /** Each mark that is a start carries its own line index. */
  predicate Indexed(marks: seq<Option<Start>>) {
    forall i :: 0 <= i < |marks| && marks[i].Some? ==> marks[i].value.idx == i
  }

  predicate Increasing(starts: seq<Start>) {
    forall k, l :: 0 <= k < l < |starts| ==> starts[k].idx < starts[l].idx
  }

  predicate Below(starts: seq<Start>, n: nat) {
    forall k :: 0 <= k < |starts| ==> starts[k].idx < n
  }

  /** The start lines of `lines`, in order (the first loop of the extractor). */
  function Starts(lines: seq<string>): seq<Start> {
    Somes(Marks(lines))
  }

  /** Start `k` is the match of the line it names, and that line is its origin among the marks. */
  lemma StartOrigin(lines: seq<string>, k: nat)
    requires k < |Starts(lines)|
    ensures var s := Starts(lines)[k];
      s.idx == Origins(Marks(lines))[k] && s.idx < |lines| && StartOf(lines[s.idx], s.idx) == Some(s)
  {
    OriginsSound(Marks(lines), k);
  }

  /** The starts are exactly the start lines, in line order. */
  lemma StartsExact(lines: seq<string>)
    ensures Increasing(Starts(lines)) && Below(Starts(lines), |lines|)
    ensures forall k :: 0 <= k < |Starts(lines)| ==>
      StartOf(lines[Starts(lines)[k].idx], Starts(lines)[k].idx) == Some(Starts(lines)[k])
    ensures forall i :: 0 <= i < |lines| && StartOf(lines[i], i).Some? ==>
      exists k :: 0 <= k < |Starts(lines)| && Starts(lines)[k] == StartOf(lines[i], i).value
  {
    var starts, marks := Starts(lines), Marks(lines);
    forall k | 0 <= k < |starts|
      ensures starts[k].idx < |lines| && StartOf(lines[starts[k].idx], starts[k].idx) == Some(starts[k])
    {
      StartOrigin(lines, k);
    }
    forall k, l | 0 <= k < l < |starts|
      ensures starts[k].idx < starts[l].idx
    {
      StartOrigin(lines, k);
      StartOrigin(lines, l);
      OriginsIncreasing(marks, k, l);
    }
    forall i | 0 <= i < |lines| && StartOf(lines[i], i).Some?
      ensures exists k :: 0 <= k < |starts| && starts[k] == StartOf(lines[i], i).value
    {
      OriginsComplete(marks, i);
      var k :| 0 <= k < |Origins(marks)| && Origins(marks)[k] == i;
      OriginsSound(marks, k);
      assert starts[k] == StartOf(lines[i], i).value;
    }
  }

  /** A body line `nonEmpty` keeps: not blank and not `actions` in any case. */
  predicate Kept(line: string) {
    line != [] && ToLower(line) != "actions"
  }

  /** `nonEmpty(list)`: the kept lines, each of them, in their order. */
  function KeepBody(lines: seq<string>): (body: seq<string>)
    ensures |body| <= |lines|
    ensures forall b <- body :: b in lines && Kept(b)
    ensures forall i :: 0 <= i < |lines| && Kept(lines[i]) ==> lines[i] in body
    decreases |lines|
  {
    if lines == [] then []
    else
      var last := lines[|lines| - 1];
      KeepBody(lines[..|lines| - 1]) + (if Kept(last) then [last] else [])
  }

  /** Filtering a concatenation filters each part: kept lines stay in their order. */
  lemma {:induction false} KeepBodyConcat(a: seq<string>, b: seq<string>)
    ensures KeepBody(a + b) == KeepBody(a) + KeepBody(b)
    decreases |b|
  {
    if b == [] {
      assert a + b == a;
    } else {
      var n := |b| - 1;
      assert (a + b)[..|a + b| - 1] == a + b[..n];
      KeepBodyConcat(a, b[..n]);
    }
  }

  /** One line is kept exactly when it qualifies. */
  lemma KeepBodyOne(line: string)
    ensures KeepBody([line]) == if Kept(line) then [line] else []
  {
    assert [line][..0] == [];
  }

  /** The starts the second loop walks: in increasing line order, each within the input. */
  predicate Ordered(starts: seq<Start>, n: nat) {
    Increasing(starts) && Below(starts, n)
  }

  /** The line after the block of start `k`: the next start line, or the end. */
  function BlockEnd(starts: seq<Start>, k: nat, n: nat): (e: nat)
    requires Ordered(starts, n) && k < |starts|
    ensures starts[k].idx < e <= n
  {
    if k + 1 < |starts| then starts[k + 1].idx else n
  }

  /** The body lines of the block of start `k`. */
  function Block(lines: seq<string>, starts: seq<Start>, k: nat): seq<string>
    requires Ordered(starts, |lines|) && k < |starts|
  {
    KeepBody(lines[starts[k].idx + 1..BlockEnd(starts, k, |lines|)])
  }

  /** `parseMx`: the matched priority and destination, else the first body line, else nothing. */
  function MxBody(body: seq<string>): (v: string)
    requires forall b <- body :: b != []
    ensures body != [] ==> v != []
  {
    match MxValue(Join(body, ' '))
    case Some(v) => v
    case None => if body != [] then assert body[0] in body; body[0] else []
  }

  /** `parseSrv`: the matched priority, weight, port and target, else the first body line, else nothing. */
  function SrvBody(body: seq<string>): (v: string)
    requires forall b <- body :: b != []
    ensures body != [] ==> v != []
  {
    match SrvValue(Join(body, ' '))
    case Some(v) => v
    case None => if body != [] then assert body[0] in body; body[0] else []
  }

  /** The body lines with their outer quote runs removed, empty ones dropped. */
  function TxtParts(body: seq<string>): (parts: seq<string>)
    ensures forall p <- parts :: p != [] && p[0] != '"' && p[|p| - 1] != '"'
    decreases |body|
  {
    if body == [] then []
    else
      var p := Strip(body[|body| - 1], '"');
      TxtParts(body[..|body| - 1]) + (if p != [] then [p] else [])
  }

  /** `parseTxt`: each part quoted, the quoted parts joined by spaces. */
  function TxtBody(body: seq<string>): (v: string)
    ensures v == [] <==> TxtParts(body) == []
  {
    var parts := TxtParts(body);
    if parts == [] then [] else QuotedList(parts)
  }

  /** The value the plain-text extractor gives a record of type `t` with body `body`. */
  function ValueOf(t: RType, body: seq<string>): string
    requires forall b <- body :: b != []
  {
    if t == TXT then TxtBody(body)
    else if t == A || t == AAAA then (if body != [] then FirstToken(body[0]) else [])
    else if t == CNAME then (if body != [] then ToFqdn(FirstToken(body[0])) else [])
    else if t == MX then MxBody(body)
    else if t == SRV then SrvBody(body)
    else Join(body, ' ')
  }

  /** The record a start with body lines `body` gives, if its value is not empty. */
  function RecordOf(s: Start, body: seq<string>, domain: string, defaultTtl: string): Option<Record>
    requires forall b <- body :: b != []
  {
    var name := ToAbsoluteName(s.name, domain);
    var value := ValueOf(s.rtype, body);
    if value == [] then None
    else Some(Record(name, if s.ttl != [] then s.ttl else defaultTtl, TypeName(s.rtype), value, InferCfTagAsWritten(name, domain)))
  }

  /** What each start gives, in the order of the starts (the second loop of the extractor). */
  function Outcomes(lines: seq<string>, starts: seq<Start>, domain: string, defaultTtl: string): (os: seq<Option<Record>>)
    requires Ordered(starts, |lines|)
    ensures |os| == |starts|
    ensures forall k :: 0 <= k < |starts| ==> os[k] == RecordOf(starts[k], Block(lines, starts, k), domain, defaultTtl)
  {
    seq(|starts|, k requires 0 <= k < |starts| => RecordOf(starts[k], Block(lines, starts, k), domain, defaultTtl))
  }

  /** `parseRecordsFromPlainText(text, domainOverride, defaultTtl)`. */
  function Extract(text: string, domainOverride: string, defaultTtl: string): Parsed {
    var lines := Lines(text);
    var starts := Starts(lines);
    if starts == [] then Parsed("", [])
    else
      StartsExact(lines);
      var domain := SanitizeDomain(domainOverride, GetBaseDomain(starts[0].name));
      Parsed(domain, Somes(Outcomes(lines, starts, domain, defaultTtl)))
  }

  lemma StartsOrdered(lines: seq<string>)
    ensures Ordered(Starts(lines), |lines|)
  {
    StartsExact(lines);
  }

  /** Body lines as the extractor sees them: not empty, and not starting with whitespace. */
  predicate BodyLines(body: seq<string>) {
    forall b <- body :: b != [] && !IsSpace(b[0])
  }

  /** The blocks of trimmed lines consist of body lines. */
  lemma BlockIsBody(lines: seq<string>, starts: seq<Start>, k: nat)
    requires forall i :: 0 <= i < |lines| ==> Trimmed(lines[i])
    requires Ordered(starts, |lines|) && k < |starts|
    ensures BodyLines(Block(lines, starts, k))
  {
    var slice := lines[starts[k].idx + 1..BlockEnd(starts, k, |lines|)];
    forall b <- Block(lines, starts, k) ensures b != [] && !IsSpace(b[0]) {
      assert b in slice;
      var j :| 0 <= j < |slice| && slice[j] == b;
      assert Trimmed(lines[starts[k].idx + 1 + j]);
    }
  }

  /** Any block with a body line gives a record, except a TXT block, which needs a part left after stripping quotes. */
  lemma ValueNonEmpty(t: RType, body: seq<string>)
    requires BodyLines(body)
    ensures t != TXT ==> (ValueOf(t, body) != [] <==> body != [])
    ensures t == TXT ==> (ValueOf(t, body) != [] <==> TxtParts(body) != [])
  {
    if t == TXT {
    } else if body == [] {
      EmptyBodyValue(t);
    } else {
      FirstLineValue(t, body);
    }
  }

  lemma EmptyBodyValue(t: RType)
    ensures ValueOf(t, []) == []
  {
    assert Join([], ' ') == [];
    if t == MX || t == SRV {
      EmptyListing();
    }
  }

  lemma FirstLineValue(t: RType, body: seq<string>)
    requires BodyLines(body) && body != [] && t != TXT
    ensures ValueOf(t, body) != []
  {
    assert body[0] in body;
    match t
    case A => FirstTokenNonEmpty(body[0]);
    case AAAA => FirstTokenNonEmpty(body[0]);
    case CNAME =>
      FirstTokenNonEmpty(body[0]);
      NonSpaceOfStart(FirstToken(body[0]));
    case MX =>
    case SRV =>
    case CAA => assert Join(body, ' ')[0] == body[0][0];
  }

  /** A TXT value reads back as the quote-stripped body lines, each of them a non-empty text without outer quotes. */
  lemma TxtValueRoundTrip(body: seq<string>)
    requires TxtBody(body) != []
    ensures ReadQuotedList(TxtBody(body)) == Some(TxtParts(body))
  {
    QuotedListRoundTrip(TxtParts(body));
  }

  /**
    An MX value is the matched priority and absolute destination when the
    joined body holds the MX fields, the first body line as it stands when it
    does not, and nothing for an empty body.
   */
  lemma MxBodyShape(body: seq<string>)
    requires BodyLines(body)
    ensures var text, v := Join(body, ' '), MxBody(body);
      && (MatchMx(text).Some? ==> v == MatchMx(text).value.0 + " " + ToFqdn(MatchMx(text).value.1))
      && (MatchMx(text).None? ==> v == if body == [] then [] else body[0])
      && (v == [] <==> body == [])
      && (MatchMx(text).Some? ==> var parts := Split(v, ' ');
           |parts| == 2 && IsDigits(parts[0]) && ToFqdn(parts[1]) == parts[1])
  {
    ValueNonEmpty(MX, body);
    if MxValue(Join(body, ' ')).Some? {
      MxValueShape(Join(body, ' '));
    }
  }

  /**
    An SRV value is the matched priority, weight, port and absolute target
    when the joined body holds the SRV fields, the first body line as it
    stands when it does not, and nothing for an empty body.
   */
  lemma SrvBodyShape(body: seq<string>)
    requires BodyLines(body)
    ensures var text, v := Join(body, ' '), SrvBody(body);
      && (MatchSrv(text).Some? ==>
            var (p, w, port, target) := MatchSrv(text).value;
            v == p + " " + w + " " + port + " " + ToFqdn(target))
      && (MatchSrv(text).None? ==> v == if body == [] then [] else body[0])
      && (v == [] <==> body == [])
      && (MatchSrv(text).Some? ==> var parts := Split(v, ' ');
           |parts| == 4 && IsDigits(parts[0]) && IsDigits(parts[1]) && IsDigits(parts[2]) && ToFqdn(parts[3]) == parts[3])
  {
    ValueNonEmpty(SRV, body);
    if SrvValue(Join(body, ' ')).Some? {
      SrvValueShape(Join(body, ' '));
    }
  }

  lemma RecordOfWellFormed(s: Start, body: seq<string>, domain: string, defaultTtl: string)
    requires IsDigits(s.ttl) && forall b <- body :: b != []
    ensures var r := RecordOf(s, body, domain, defaultTtl);
      r.Some? ==> WellFormed(r.value, domain) && r.value.ttl == s.ttl && r.value.rtype == TypeName(s.rtype)
  {
    TypeNameRoundTrip(s.rtype, []);
  }

  /** Without a start line the extractor finds no domain and no records; with one, the domain is a valid domain or the first name's base domain. */
  lemma ExtractDomain(text: string, domainOverride: string, defaultTtl: string)
    ensures var lines := Lines(text); var p := Extract(text, domainOverride, defaultTtl);
      && ((forall i :: 0 <= i < |lines| ==> StartOf(lines[i], i).None?) ==> p == Parsed("", []))
      && (Starts(lines) != [] ==> ValidDomain(p.domain) || p.domain == GetBaseDomain(Starts(lines)[0].name))
  {
    var lines := Lines(text);
    StartsExact(lines);
    if Starts(lines) != [] {
      var s := Starts(lines)[0];
      assert StartOf(lines[s.idx], s.idx).Some?;
    }
  }

  /** Every record the extractor returns is well formed. */
  lemma ExtractWellFormed(text: string, domainOverride: string, defaultTtl: string)
    ensures var p := Extract(text, domainOverride, defaultTtl);
      forall r <- p.records :: WellFormed(r, p.domain)
  {
    var p := Extract(text, domainOverride, defaultTtl);
    forall j | 0 <= j < |p.records| ensures WellFormed(p.records[j], p.domain) {
      RecordWellFormed(text, domainOverride, defaultTtl, j);
    }
  }

  lemma RecordWellFormed(text: string, domainOverride: string, defaultTtl: string, j: nat)
    requires j < |Extract(text, domainOverride, defaultTtl).records|
    ensures var p := Extract(text, domainOverride, defaultTtl); WellFormed(p.records[j], p.domain)
  {
    var lines := Lines(text);
    var starts := Starts(lines);
    var p := Extract(text, domainOverride, defaultTtl);
    StartsOrdered(lines);
    var os := Outcomes(lines, starts, p.domain, defaultTtl);
    assert p.records == Somes(os);
    OriginsSound(os, j);
    var k := Origins(os)[j];
    StartOrigin(lines, k);
    assert os[k] == RecordOf(starts[k], Block(lines, starts, k), p.domain, defaultTtl);
    RecordOfWellFormed(starts[k], Block(lines, starts, k), p.domain, defaultTtl);
  }

  /** Records keep the order of their start lines: the `j`-th and `l`-th records come from starts `a < b`. */
  lemma ExtractOrder(text: string, domainOverride: string, defaultTtl: string, j: nat, l: nat)
    requires j < l < |Extract(text, domainOverride, defaultTtl).records|
    ensures var lines := Lines(text); var starts := Starts(lines);
      var p := Extract(text, domainOverride, defaultTtl);
      && Ordered(starts, |lines|)
      && var ix := Origins(Outcomes(lines, starts, p.domain, defaultTtl));
      && |ix| == |p.records|
      && ix[j] < ix[l] < |starts|
      && RecordOf(starts[ix[j]], Block(lines, starts, ix[j]), p.domain, defaultTtl) == Some(p.records[j])
      && RecordOf(starts[ix[l]], Block(lines, starts, ix[l]), p.domain, defaultTtl) == Some(p.records[l])
  {
    var lines := Lines(text);
    var starts := Starts(lines);
    var p := Extract(text, domainOverride, defaultTtl);
    StartsOrdered(lines);
    var os := Outcomes(lines, starts, p.domain, defaultTtl);
    assert p.records == Somes(os);
    OriginsSound(os, j);
    OriginsSound(os, l);
    OriginsIncreasing(os, j, l);
    var ix := Origins(os);
    assert os[ix[j]] == RecordOf(starts[ix[j]], Block(lines, starts, ix[j]), p.domain, defaultTtl);
    assert os[ix[l]] == RecordOf(starts[ix[l]], Block(lines, starts, ix[l]), p.domain, defaultTtl);
  }

  /** No block with a value is dropped: the record of every such start is among the results. */
  lemma ExtractComplete(text: string, domainOverride: string, defaultTtl: string, k: nat)
    requires var lines := Lines(text); k < |Starts(lines)|
    ensures var lines := Lines(text); var starts := Starts(lines);
      var p := Extract(text, domainOverride, defaultTtl);
      && Ordered(starts, |lines|)
      && var r := RecordOf(starts[k], Block(lines, starts, k), p.domain, defaultTtl);
      r.Some? ==> r.value in p.records
  {
    var lines := Lines(text);
    var starts := Starts(lines);
    var p := Extract(text, domainOverride, defaultTtl);
    StartsOrdered(lines);
    var os := Outcomes(lines, starts, p.domain, defaultTtl);
    assert p.records == Somes(os);
    if os[k].Some? {
      OriginsComplete(os, k);
      var j :| 0 <= j < |Origins(os)| && Origins(os)[j] == k;
      OriginsSound(os, j);
    }
  }

  /** The first loop: the start lines, in order. */
  method CollectStarts(lines: seq<string>) returns (starts: seq<Start>)
    ensures starts == Starts(lines)
  {
    ghost var marks := Marks(lines);
    starts := [];
    var i := 0;
    while i < |lines|
      invariant 0 <= i <= |lines|
      invariant starts == Somes(marks[..i])
    {
      SomesStep(marks, i);
      var m := StartOf(lines[i], i);
      assert m == marks[i];
      if m.Some? {
        starts := starts + [m.value];
      }
      i := i + 1;
    }
    assert marks[..|lines|] == marks;
  }

  /** The body lines of start `k`: the lines up to the next start, blanks and `actions` dropped. */
  method BlockLines(lines: seq<string>, starts: seq<Start>, k: nat) returns (recordLines: seq<string>)
    requires Ordered(starts, |lines|) && k < |starts|
    ensures recordLines == Block(lines, starts, k)
  {
    var current := starts[k];
    var nextIdx := if k + 1 < |starts| then starts[k + 1].idx else |lines|;
    recordLines := KeepBody(lines[current.idx + 1..nextIdx]);
  }

  /** The rest of the second loop's body: the name, proxy flag and value of a start, and the record if the value is not empty. */
  method BlockRecord(current: Start, recordLines: seq<string>, baseDomain: string, defaultTtl: string)
    returns (record: Option<Record>)
    requires forall b <- recordLines :: b != []
    ensures record == RecordOf(current, recordLines, baseDomain, defaultTtl)
  {
    var name := ToAbsoluteName(current.name, baseDomain);
    var proxied := InferCfTagAsWritten(name, baseDomain);
    var value := ValueOf(current.rtype, recordLines);
    if value != [] {
      record := Some(Record(name, if current.ttl != [] then current.ttl else defaultTtl, TypeName(current.rtype), value, proxied));
    } else {
      record := None;
    }
  }

  /** One pass of the second loop: the block of start `k` and the record it gives. */
  method StartRecord(lines: seq<string>, starts: seq<Start>, k: nat, baseDomain: string, defaultTtl: string)
    returns (record: Option<Record>)
    requires Ordered(starts, |lines|) && k < |starts|
    ensures record == Outcomes(lines, starts, baseDomain, defaultTtl)[k]
  {
    var recordLines := BlockLines(lines, starts, k);
    record := BlockRecord(starts[k], recordLines, baseDomain, defaultTtl);
  }

  /** The second loop: one record per block whose value is not empty, in the order of the starts. */
  method CollectRecords(lines: seq<string>, starts: seq<Start>, baseDomain: string, defaultTtl: string)
    returns (parsed: seq<Record>)
    requires Ordered(starts, |lines|)
    ensures parsed == Somes(Outcomes(lines, starts, baseDomain, defaultTtl))
  {
    ghost var outcomes := Outcomes(lines, starts, baseDomain, defaultTtl);
    parsed := [];
    var k := 0;
    while k < |starts|
      invariant 0 <= k <= |starts|
      invariant parsed == Somes(outcomes[..k])
    {
      SomesStep(outcomes, k);
      var record := StartRecord(lines, starts, k, baseDomain, defaultTtl);
      if record.Some? {
        parsed := parsed + [record.value];
      }
      k := k + 1;
    }
    assert outcomes[..|starts|] == outcomes;
  }

  /** The extractor as the source runs it: the start lines first, then one record per block with a value. */
  method ParsePlainText(text: string, domainOverride: string, defaultTtl: string) returns (result: Parsed)
    ensures result == Extract(text, domainOverride, defaultTtl)
  {
    var lines := Lines(text);
    var starts := CollectStarts(lines);
    if |starts| == 0 {
      return Parsed("", []);
    }
    StartsExact(lines);
    var baseDomain := SanitizeDomain(domainOverride, GetBaseDomain(starts[0].name));
    var parsed := CollectRecords(lines, starts, baseDomain, defaultTtl);
    return Parsed(baseDomain, parsed);
  }
}
