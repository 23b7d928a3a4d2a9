/**
  DNS records as the importer keeps them, the seven record types it knows,
  and the value builders its two extractors share.
 */
module Records {
  import opened Wrappers
  import opened Text
  import opened Names
  import opened Pattern
  import opened Quoting

  /** The record types the importer handles, in the order the zone file lists them. */
  datatype RType = A | AAAA | CNAME | MX | SRV | TXT | CAA

  const AllTypes: seq<RType> := [A, AAAA, CNAME, MX, SRV, TXT, CAA]

  function TypeName(t: RType): (s: string)
    ensures |s| > 0
  {
    match t
    case A => "A"
    case AAAA => "AAAA"
    case CNAME => "CNAME"
    case MX => "MX"
    case SRV => "SRV"
    case TXT => "TXT"
    case CAA => "CAA"
  }

  /** The record type an upper-case type name stands for. */
  function ParseType(s: string): (r: Option<RType>) {
    if s == "A" then Some(A)
    else if s == "AAAA" then Some(AAAA)
    else if s == "CNAME" then Some(CNAME)
    else if s == "MX" then Some(MX)
    else if s == "SRV" then Some(SRV)
    else if s == "TXT" then Some(TXT)
    else if s == "CAA" then Some(CAA)
    else None
  }

  /** Type names and record types are in one-to-one correspondence. */
  lemma TypeNameRoundTrip(t: RType, s: string)
    ensures ParseType(TypeName(t)) == Some(t)
    ensures ParseType(s) == Some(t) ==> TypeName(t) == s
  {
  }

  lemma AllTypesComplete(t: RType)
    ensures t in AllTypes
  {
  }

  /** One record of the editable list; the type stays text because the editor may hold anything. */
  datatype Record = Record(name: string, ttl: string, rtype: string, value: string, proxied: bool)

  /** A record as the extractors produce it: its value is not empty, its TTL is all digits, its type is one the importer knows, its name is absolute, and its proxy flag is the name's classification. */
  predicate WellFormed(r: Record, domain: string) {
    && r.value != []
    && IsDigits(r.ttl)
    && ParseType(r.rtype).Some?
    && EndsWith(r.name, ".")
    && r.proxied == InferCfTagAsWritten(r.name, domain)
  }

  /** What an extractor returns: the zone's domain and the records in input order. */
  datatype Parsed = Parsed(domain: string, records: seq<Record>)

  /** `line.split(" ")[0]`: the text before the first space. */
  function FirstToken(line: string): (r: string)
    ensures r <= line && ' ' !in r
    ensures |r| < |line| ==> line[|r|] == ' '
  {
    FirstTokenPrefix(line);
    Split(line, ' ')[0]
  }

  lemma {:induction false} FirstTokenPrefix(line: string)
    ensures var r := Split(line, ' ')[0];
      r <= line && (|r| < |line| ==> line[|r|] == ' ')
    decreases |line|
  {
    if line != [] {
      FirstTokenPrefix(line[1..]);
    }
  }

  /** The first token of a line that does not start with whitespace is not empty. */
  lemma FirstTokenNonEmpty(line: string)
    requires line != [] && !IsSpace(line[0])
    ensures FirstToken(line) != [] && FirstToken(line)[0] == line[0]
  {
  }

  lemma {:induction false} NonSpaceOfStart(t: string)
    requires t != [] && !IsSpace(t[0])
    ensures NonSpace(t) != []
  {
    NonSpaceConcat([t[0]], t[1..]);
    assert [t[0]] + t[1..] == t;
  }

  /** The MX value `<priority> <fqdn(destination)>` of a listing, when it has the priority and destination fields. */
  function MxValue(text: string): (r: Option<string>)
    ensures r.Some? ==> |r.value| > 0
  {
    match MatchMx(text)
    case Some((priority, destination)) => Some(priority + " " + ToFqdn(destination))
    case None => None
  }

  /** The SRV value `<priority> <weight> <port> <fqdn(target)>` of a listing with all four fields. */
  function SrvValue(text: string): (r: Option<string>)
    ensures r.Some? ==> |r.value| > 0
  {
    match MatchSrv(text)
    case Some((priority, weight, port, target)) =>
      Some(priority + " " + weight + " " + port + " " + ToFqdn(target))
    case None => None
  }

  /** The CAA value `<flag> <tag> "<value>"` of a listing with all three fields, the value normalised and quoted. */
  function CaaValue(text: string): (r: Option<string>)
    ensures r.Some? ==> |r.value| > 0
  {
    match MatchCaa(text)
    case Some((flag, tag, value)) => Some(flag + " " + tag + " " + QuotedTxt(Norm(value)))
    case None => None
  }

  /** Reads a CAA value back: the flag up to the first space, the tag up to the next, then exactly one quoted string. */
  function ReadCaa(v: string): Option<(string, string, string)> {
    var flag := FirstToken(v);
    if |flag| == |v| then None
    else
      var rest := v[|flag| + 1..];
      var tag := FirstToken(rest);
      if |tag| == |rest| then None
      else match ReadQuoted(rest[|tag| + 1..])
        case Some((x, tail)) => if tail == [] then Some((flag, tag, x)) else None
        case None => None
  }

  /** The first token of `a + " " + b` is `a` when `a` has no space. */
  lemma FirstTokenOf(a: string, b: string)
    requires ' ' !in a
    ensures FirstToken(a + " " + b) == a
  {
    assert a + " " + b == a + (" " + b);
    SplitPrefix(a, " " + b, ' ');
    assert Split(" " + b, ' ')[0] == [];
    assert a + [] == a;
  }

  /** `ReadCaa` undoes the CAA value format. */
  lemma ReadCaaOf(flag: string, tag: string, x: string)
    requires ' ' !in flag && ' ' !in tag
    ensures ReadCaa(flag + " " + tag + " " + QuotedTxt(x)) == Some((flag, tag, x))
  {
    var q := QuotedTxt(x);
    var v := flag + " " + tag + " " + q;
    assert v == flag + " " + (tag + " " + q);
    FirstTokenOf(flag, tag + " " + q);
    assert v[|flag| + 1..] == tag + " " + q;
    FirstTokenOf(tag, q);
    assert (tag + " " + q)[|tag| + 1..] == q;
    QuotedRoundTrip(x, []);
    assert q + [] == q;
  }

  /** A CAA value read from a listing reads back as the listing's flag, tag and normalised value. */
  lemma CaaRoundTrip(text: string)
    requires CaaValue(text).Some?
    ensures ReadCaa(CaaValue(text).value) == Some((MatchCaa(text).value.0, MatchCaa(text).value.1, Norm(MatchCaa(text).value.2)))
  {
    var (flag, tag, value) := MatchCaa(text).value;
    assert ' ' !in flag;
    assert ' ' !in tag;
    ReadCaaOf(flag, tag, Norm(value));
  }

  /** An MX value read from a listing is an all-digit priority, one space and a non-empty FQDN. */
  lemma MxValueShape(text: string)
    requires MxValue(text).Some?
    ensures var parts := Split(MxValue(text).value, ' ');
      |parts| == 2 && IsDigits(parts[0]) && parts[1] != [] && ToFqdn(parts[1]) == parts[1]
  {
    var (priority, destination) := MatchMx(text).value;
    MxFieldsShape(priority, destination);
  }

  lemma MxFieldsShape(priority: string, destination: string)
    requires IsDigits(priority) && IsToken(destination)
    ensures var parts := Split(priority + " " + ToFqdn(destination), ' ');
      |parts| == 2 && IsDigits(parts[0]) && parts[1] != [] && ToFqdn(parts[1]) == parts[1]
  {
    FqdnOfToken(destination);
    assert ' ' !in priority;
    SplitJoinTwo(priority, ToFqdn(destination), ' ');
  }

  /** An SRV value read from a listing is three all-digit fields and a non-empty FQDN, split by single spaces. */
  lemma SrvValueShape(text: string)
    requires SrvValue(text).Some?
    ensures var parts := Split(SrvValue(text).value, ' ');
      && |parts| == 4 && IsDigits(parts[0]) && IsDigits(parts[1]) && IsDigits(parts[2])
      && parts[3] != [] && ToFqdn(parts[3]) == parts[3]
  {
    var (p, w, port, target) := MatchSrv(text).value;
    SrvFieldsShape(p, w, port, target);
  }

  lemma SrvFieldsShape(p: string, w: string, port: string, target: string)
    requires IsDigits(p) && IsDigits(w) && IsDigits(port) && IsToken(target)
    ensures var parts := Split(p + " " + w + " " + port + " " + ToFqdn(target), ' ');
      && |parts| == 4 && IsDigits(parts[0]) && IsDigits(parts[1]) && IsDigits(parts[2])
      && parts[3] != [] && ToFqdn(parts[3]) == parts[3]
  {
    FqdnOfToken(target);
    SrvFieldsSplit(p, w, port, ToFqdn(target));
  }

  /** Three all-digit fields and a blank-free text, joined by single spaces, split back into those four. */
  lemma SrvFieldsSplit(p: string, w: string, port: string, t: string)
    requires IsDigits(p) && IsDigits(w) && IsDigits(port) && ' ' !in t
    ensures var parts := Split(p + " " + w + " " + port + " " + t, ' ');
      |parts| == 4 && parts[0] == p && parts[1] == w && parts[2] == port && parts[3] == t
  {
    assert ' ' !in p && ' ' !in w && ' ' !in port;
    SrvFields(p, w, port, t);
  }

  /** The FQDN of a token is a non-empty token that is its own FQDN. */
  lemma FqdnOfToken(token: string)
    requires IsToken(token)
    ensures var fq := ToFqdn(token); fq != [] && ' ' !in fq && ToFqdn(fq) == fq
  {
    NormalOfNoSpace(token);
    NormFixesNormal(token);
    ToFqdnIdempotent(token);
  }

  /** Four space-free fields joined by single spaces split back into the four. */
  lemma SrvFields(p: string, w: string, port: string, t: string)
    requires ' ' !in p && ' ' !in w && ' ' !in port && ' ' !in t
    ensures Split(p + " " + w + " " + port + " " + t, ' ') == [p, w, port, t]
  {
    SplitJoinTwo(port, t, ' ');
    assert w + " " + port + " " + t == w + [' '] + (port + [' '] + t);
    SplitCons(w, port + [' '] + t, ' ');
    assert p + " " + w + " " + port + " " + t == p + [' '] + (w + [' '] + port + [' '] + t);
    SplitCons(p, w + [' '] + port + [' '] + t, ' ');
  }
}
