/**
  The BIND-style zone file the importer generates: a comment header, then
  one section per record type in a fixed order, each a banner, the records'
  lines in input order and a blank line. The export time and the domain of
  the previous run are parameters.
 */
module Zone {
  import opened Wrappers
  import opened Text
  import opened Names
  import opened Records

  /** What `buildZone` returns: the zone's domain and the file's text. */
  datatype Zone = Zone(domain: string, output: string)

  /** The zone's domain: the sanitised override, else the previous run's domain, else `example.com`. */
  function ZoneDomain(domainOverride: string, lastGeneratedDomain: string): (d: string)
    ensures ValidDomain(d)
  {
    ValidExample();
    SanitizeDomain(domainOverride, SanitizeDomain(lastGeneratedDomain, "example.com"))
  }

  const ProxySuffix: string := " ; cf_tags=cf-proxied:"

  /** The Cloudflare proxy comment appended to A, AAAA and CNAME data. */
  function CfTag(proxied: bool): string {
    ProxySuffix + (if proxied then "true" else "false")
  }

  /** The record data field: A, AAAA and CNAME data carry the proxy tag, CNAME targets are made absolute. */
  function Data(t: RType, value: string, proxied: bool): string {
    match t
    case A => value + CfTag(proxied)
    case AAAA => value + CfTag(proxied)
    case CNAME => ToFqdn(value) + CfTag(proxied)
    case _ => value
  }

  /** The fields of a zone line joined by tabs. */
  function TabLine(name: string, ttl: string, t: RType, data: string): string {
    name + "\t" + ttl + "\tIN\t" + TypeName(t) + "\t" + data
  }

  /** The section a record goes to and its line; nothing for a record without a known type or a value. */
  function RecordLine(r: Record, domain: string, defaultTtl: string): Option<(RType, string)> {
    var name := ToAbsoluteName(r.name, domain);
    var ttl := if IsDigits(r.ttl) then r.ttl else defaultTtl;
    var t := ToUpper(r.rtype);
    var value := Norm(r.value);
    if t == [] || value == [] then None
    else match ParseType(t)
      case Some(rt) => Some((rt, TabLine(name, ttl, rt, Data(rt, value, r.proxied))))
      case None => None
  }

  /** What each record gives, in input order. */
  function LineOutcomes(records: seq<Record>, domain: string, defaultTtl: string): (os: seq<Option<(RType, string)>>)
    ensures |os| == |records|
    ensures forall i :: 0 <= i < |records| ==> os[i] == RecordLine(records[i], domain, defaultTtl)
  {
    seq(|records|, i requires 0 <= i < |records| => RecordLine(records[i], domain, defaultTtl))
  }

  /** The lines of section `t`, in input order. */
  function Bucket(entries: seq<(RType, string)>, t: RType): (b: seq<string>)
    ensures |b| <= |entries|
    decreases |entries|
  {
    if entries == [] then []
    else
      var n := |entries| - 1;
      Bucket(entries[..n], t) + (if entries[n].0 == t then [entries[n].1] else [])
  }

  /**
    The two fixed notes of the header (app.js:445-446). Each is written as two
    literals joined, so that the verifier can see that neither holds a line feed.
   */
  const GeneratedNote: string := ";; This file is generated " + "from cPanel HTML table data."
  const ReviewNote: string := ";; Review records " + "before production use."

  /** The comment header: domain, export time, and the notes. */
  function Header(domain: string, stamp: string): seq<string> {
    [";; Domain:     " + domain + ".",
     ";; Exported:   " + stamp,
     ";;",
     GeneratedNote,
     ReviewNote,
     ";;",
     ""]
  }

  /** A section: its banner, its lines and a blank line; nothing for an empty bucket. */
  function Section(t: RType, bucket: seq<string>): seq<string> {
    if bucket == [] then [] else [";; " + TypeName(t) + " Records"] + bucket + [""]
  }

  /** All lines of the file, the sections in the order A, AAAA, CNAME, MX, SRV, TXT, CAA. */
  function ZoneLines(entries: seq<(RType, string)>, domain: string, stamp: string): seq<string> {
    Header(domain, stamp)
    + Section(A, Bucket(entries, A)) + Section(AAAA, Bucket(entries, AAAA))
    + Section(CNAME, Bucket(entries, CNAME)) + Section(MX, Bucket(entries, MX))
    + Section(SRV, Bucket(entries, SRV)) + Section(TXT, Bucket(entries, TXT))
    + Section(CAA, Bucket(entries, CAA))
  }

  /** `buildZone(recordList, domainOverride, defaultTtl)`. */
  function BuildZoneSpec(records: seq<Record>, domainOverride: string, defaultTtl: string,
                         lastGeneratedDomain: string, stamp: string): Zone
  {
    var domain := ZoneDomain(domainOverride, lastGeneratedDomain);
    var entries := Somes(LineOutcomes(records, domain, defaultTtl));
    Zone(domain, Join(ZoneLines(entries, domain, stamp), '\n') + "\n")
  }

  /** The body of the record loop: the record's section and line, if it has a known type and a value. */
  method FormatRecord(record: Record, domain: string, defaultTtl: string) returns (entry: Option<(RType, string)>)
    ensures entry == RecordLine(record, domain, defaultTtl)
  {
    var name := ToAbsoluteName(record.name, domain);
    var ttl := if IsDigits(record.ttl) then record.ttl else defaultTtl;
    var t := ToUpper(record.rtype);
    var value := Norm(record.value);
    if t == [] || value == [] {
      return None;
    }
    var typed := TypedData(t, value, record.proxied);
    if typed.None? {
      return None;
    }
    var (rt, data) := typed.value;
    entry := Some((rt, name + "\t" + ttl + "\tIN\t" + t + "\t" + data));
  }

  /** The branches on the upper-cased type: the section, and the data field with the proxy tag where it applies. */
  method TypedData(t: string, value: string, proxied: bool) returns (typed: Option<(RType, string)>)
    ensures typed.Some? <==> ParseType(t).Some?
    ensures typed.Some? ==> typed.value.0 == ParseType(t).value && t == TypeName(typed.value.0)
                            && typed.value.1 == Data(typed.value.0, value, proxied)
  {
    var tag := ProxySuffix + (if proxied then "true" else "false");
    if t == "A" || t == "AAAA" {
      typed := Some((if t == "A" then A else AAAA, value + tag));
    } else if t == "CNAME" {
      typed := Some((CNAME, ToFqdn(value) + tag));
    } else if t == "MX" {
      typed := Some((MX, value));
    } else if t == "SRV" {
      typed := Some((SRV, value));
    } else if t == "TXT" {
      typed := Some((TXT, value));
    } else if t == "CAA" {
      typed := Some((CAA, value));
    } else {
      typed := None;
    }
  }

  /** `byType` after the records loop: each section's lines, in input order. */
  predicate Buckets(byType: map<RType, seq<string>>, entries: seq<(RType, string)>) {
    forall t: RType :: t in byType && byType[t] == Bucket(entries, t)
  }

  /** The records loop: each record's line pushed onto its section's bucket. */
  method FillBuckets(records: seq<Record>, domain: string, defaultTtl: string) returns (byType: map<RType, seq<string>>)
    ensures Buckets(byType, Somes(LineOutcomes(records, domain, defaultTtl)))
  {
    ghost var outcomes := LineOutcomes(records, domain, defaultTtl);
    byType := map[A := [], AAAA := [], CNAME := [], MX := [], SRV := [], TXT := [], CAA := []];
    EmptyBuckets(byType);
    assert outcomes[..0] == [];
    var i := 0;
    while i < |records|
      invariant 0 <= i <= |records|
      invariant Buckets(byType, Somes(outcomes[..i]))
    {
      SomesStep(outcomes, i);
      var entry := FormatRecord(records[i], domain, defaultTtl);
      assert entry == outcomes[i];
      byType := PushEntry(byType, Somes(outcomes[..i]), entry);
      i := i + 1;
    }
    assert outcomes[..|records|] == outcomes;
  }

  lemma EmptyBuckets(byType: map<RType, seq<string>>)
    requires byType == map[A := [], AAAA := [], CNAME := [], MX := [], SRV := [], TXT := [], CAA := []]
    ensures Buckets(byType, [])
  {
    forall t: RType ensures t in byType && byType[t] == Bucket([], t) {
      match t
      case A => case AAAA => case CNAME => case MX => case SRV => case TXT => case CAA =>
    }
  }

  /** `byType[type].push(line)` for a record that gives a line; nothing for one that does not. */
  method PushEntry(byType: map<RType, seq<string>>, ghost entries: seq<(RType, string)>, entry: Option<(RType, string)>)
    returns (after: map<RType, seq<string>>)
    requires Buckets(byType, entries)
    ensures Buckets(after, entries + AsList(entry))
  {
    after := byType;
    if entry.Some? {
      var (t, line) := entry.value;
      BucketAppend(entries, entry.value);
      after := byType[t := byType[t] + [line]];
    } else {
      assert entries + [] == entries;
    }
  }

  lemma BucketAppend(entries: seq<(RType, string)>, e: (RType, string))
    ensures forall t :: Bucket(entries + [e], t) == Bucket(entries, t) + (if e.0 == t then [e.1] else [])
  {
    assert (entries + [e])[..|entries|] == entries;
  }

  /** One `if (byType.T.length)` block of the source: banner, lines, blank. */
  method AddSection(lines: seq<string>, t: RType, bucket: seq<string>) returns (out: seq<string>)
    ensures out == lines + Section(t, bucket)
  {
    out := lines;
    if |bucket| > 0 {
      out := out + [";; " + TypeName(t) + " Records"];
      out := out + bucket;
      out := out + [""];
    }
  }

  /** `buildZone`: the records sorted into sections, then the header and the non-empty sections joined into the file. */
  method BuildZone(records: seq<Record>, domainOverride: string, defaultTtl: string,
                   lastGeneratedDomain: string, stamp: string) returns (zone: Zone)
    ensures zone == BuildZoneSpec(records, domainOverride, defaultTtl, lastGeneratedDomain, stamp)
  {
    var domain := SanitizeDomain(domainOverride, SanitizeDomain(lastGeneratedDomain, "example.com"));
    var byType := FillBuckets(records, domain, defaultTtl);
    ghost var entries := Somes(LineOutcomes(records, domain, defaultTtl));
    var lines := [
      ";; Domain:     " + domain + ".",
      ";; Exported:   " + stamp,
      ";;",
      GeneratedNote,
      ReviewNote,
      ";;",
      ""];
    lines := AddSection(lines, A, byType[A]);
    lines := AddSection(lines, AAAA, byType[AAAA]);
    lines := AddSection(lines, CNAME, byType[CNAME]);
    lines := AddSection(lines, MX, byType[MX]);
    lines := AddSection(lines, SRV, byType[SRV]);
    lines := AddSection(lines, TXT, byType[TXT]);
    lines := AddSection(lines, CAA, byType[CAA]);
    assert lines == ZoneLines(entries, domain, stamp);
    zone := Zone(domain, Join(lines, '\n') + "\n");
  }

  /** Only A, AAAA and CNAME data carry the proxy tag, and it reads `true` exactly for proxied records; other data is the value itself. */
  lemma ProxyTag(t: RType, value: string, proxied: bool)
    ensures t in {A, AAAA, CNAME} ==> (EndsWith(Data(t, value, proxied), ProxySuffix + "true") <==> proxied)
    ensures t in {A, AAAA, CNAME} ==> (EndsWith(Data(t, value, proxied), ProxySuffix + "false") <==> !proxied)
    ensures t !in {A, AAAA, CNAME} ==> Data(t, value, proxied) == value
  {
    if t in {A, AAAA, CNAME} {
      FlagEnds(if t == CNAME then ToFqdn(value) else value, proxied);
    }
  }

  lemma FlagEnds(v: string, proxied: bool)
    ensures var d := v + CfTag(proxied);
      && (EndsWith(d, ProxySuffix + "true") <==> proxied)
      && (EndsWith(d, ProxySuffix + "false") <==> !proxied)
  {
    var d := v + CfTag(proxied);
    assert d[|d| - |CfTag(proxied)|..] == CfTag(proxied);
    if proxied {
      assert d[|d| - 5] == ':';
      assert (ProxySuffix + "false")[|ProxySuffix| + 5 - 5] == 'f';
    } else {
      assert d[|d| - 4] == 'a';
      assert (ProxySuffix + "true")[|ProxySuffix| + 4 - 4] == 't';
    }
  }

  /** Normalised text holds no whitespace other than the plain space. */
  lemma NormalAvoids(t: string, c: char)
    requires Normal(t) && IsSpace(c) && c != ' '
    ensures c !in t
  {
  }

  /** Five tab-free fields joined by tabs split back into those fields. */
  lemma SplitFive(a: string, b: string, c: string, d: string, e: string)
    requires '\t' !in a && '\t' !in b && '\t' !in c && '\t' !in d && '\t' !in e
    ensures Split(a + "\t" + b + "\t" + c + "\t" + d + "\t" + e, '\t') == [a, b, c, d, e]
  {
    var tab := "\t";
    var s2 := b + tab + c + tab + d + tab + e;
    SplitFour(b, c, d, e);
    assert a + tab + b + tab + c + tab + d + tab + e == a + tab + s2;
    SplitField(a, s2);
  }

  lemma SplitFour(b: string, c: string, d: string, e: string)
    requires '\t' !in b && '\t' !in c && '\t' !in d && '\t' !in e
    ensures Split(b + "\t" + c + "\t" + d + "\t" + e, '\t') == [b, c, d, e]
  {
    var tab := "\t";
    var s3 := c + tab + d + tab + e;
    SplitThree(c, d, e);
    assert b + tab + c + tab + d + tab + e == b + tab + s3;
    SplitField(b, s3);
  }

  lemma SplitThree(c: string, d: string, e: string)
    requires '\t' !in c && '\t' !in d && '\t' !in e
    ensures Split(c + "\t" + d + "\t" + e, '\t') == [c, d, e]
  {
    var tab := "\t";
    SplitPrefix(e, [], '\t');
    assert e + [] == e;
    SplitField(d, e);
    assert c + tab + d + tab + e == c + tab + (d + tab + e);
    SplitField(c, d + tab + e);
  }

  /** A tab-free field before a tab is the first piece of the split. */
  lemma SplitField(a: string, rest: string)
    requires '\t' !in a
    ensures Split(a + "\t" + rest, '\t') == [a] + Split(rest, '\t')
  {
    SplitCons(a, rest, '\t');
  }

  lemma DataAvoids(t: RType, value: string, proxied: bool, c: char)
    requires Normal(value) && (c == '\t' || c == '\n')
    ensures c !in Data(t, value, proxied)
  {
    if t == A || t == AAAA || t == CNAME {
      var v := if t == CNAME then ToFqdn(value) else value;
      assert Data(t, value, proxied) == v + CfTag(proxied);
      NormalAvoids(v, c);
      CfTagAvoids(proxied, c);
      AvoidsConcat(v, CfTag(proxied), c);
    } else {
      NormalAvoids(value, c);
    }
  }

  lemma CfTagAvoids(proxied: bool, c: char)
    requires c == '\t' || c == '\n'
    ensures c !in CfTag(proxied)
  {
    assert c !in ProxySuffix;
  }

  /** The name, TTL and data of a record's line hold no tab or line feed that the default TTL does not hold, when the domain has no blanks. */
  lemma FieldsAvoid(r: Record, t: RType, domain: string, defaultTtl: string, c: char)
    requires NoSpace(domain) && (c == '\t' || c == '\n') && c !in defaultTtl
    ensures c !in ToAbsoluteName(r.name, domain)
    ensures c !in (if IsDigits(r.ttl) then r.ttl else defaultTtl)
    ensures c !in Data(t, Norm(r.value), r.proxied)
  {
    AbsoluteNameNormal(r.name, domain);
    NormalAvoids(ToAbsoluteName(r.name, domain), c);
    DataAvoids(t, Norm(r.value), r.proxied, c);
  }

  /**
    A zone line splits at its tabs into exactly five fields: the absolute
    name, the TTL, `IN`, the type and the data, when neither the domain nor
    the default TTL holds a tab.
   */
  lemma LineFields(r: Record, domain: string, defaultTtl: string)
    requires NoSpace(domain) && '\t' !in defaultTtl
    requires RecordLine(r, domain, defaultTtl).Some?
    ensures var (t, line) := RecordLine(r, domain, defaultTtl).value;
      && Some(t) == ParseType(ToUpper(r.rtype))
      && Split(line, '\t') == [ToAbsoluteName(r.name, domain), if IsDigits(r.ttl) then r.ttl else defaultTtl,
                                "IN", TypeName(t), Data(t, Norm(r.value), r.proxied)]
  {
    var (t, line) := RecordLine(r, domain, defaultTtl).value;
    var name, ttl, data := ToAbsoluteName(r.name, domain), if IsDigits(r.ttl) then r.ttl else defaultTtl, Data(t, Norm(r.value), r.proxied);
    FieldsAvoid(r, t, domain, defaultTtl, '\t');
    TabLineSplits(name, ttl, t, data);
  }

  lemma TabLineSplits(name: string, ttl: string, t: RType, data: string)
    requires '\t' !in name && '\t' !in ttl && '\t' !in data
    ensures Split(TabLine(name, ttl, t, data), '\t') == [name, ttl, "IN", TypeName(t), data]
  {
    assert '\t' !in TypeName(t);
    SplitFive(name, ttl, "IN", TypeName(t), data);
    assert TabLine(name, ttl, t, data) == name + "\t" + ttl + "\t" + "IN" + "\t" + TypeName(t) + "\t" + data;
  }

  /** Every entry's line is in the bucket of its type. */
  lemma {:induction false} BucketComplete(entries: seq<(RType, string)>, j: nat)
    requires j < |entries|
    ensures entries[j].1 in Bucket(entries, entries[j].0)
    decreases |entries|
  {
    var n := |entries| - 1;
    if j < n {
      assert entries[..n][j] == entries[j];
      BucketComplete(entries[..n], j);
    }
  }

  /** Every line of a bucket is the line of an entry of that type. */
  lemma {:induction false} BucketSound(entries: seq<(RType, string)>, t: RType, x: string)
    requires x in Bucket(entries, t)
    ensures (t, x) in entries
    decreases |entries|
  {
    var n := |entries| - 1;
    if x in Bucket(entries[..n], t) {
      BucketSound(entries[..n], t, x);
      assert entries[..n] <= entries;
    } else {
      assert entries[n] == (t, x);
    }
  }

  /** The seven buckets split the entries: together they hold exactly as many lines as there are entries. */
  lemma {:induction false} BucketsPartition(entries: seq<(RType, string)>)
    ensures |Bucket(entries, A)| + |Bucket(entries, AAAA)| + |Bucket(entries, CNAME)| + |Bucket(entries, MX)|
            + |Bucket(entries, SRV)| + |Bucket(entries, TXT)| + |Bucket(entries, CAA)| == |entries|
    decreases |entries|
  {
    if entries != [] {
      BucketsPartition(entries[..|entries| - 1]);
    }
  }

  /** A record's line holds no line feed when the domain has no blanks and the default TTL has no line feed. */
  lemma LineAvoidsNewline(r: Record, domain: string, defaultTtl: string)
    requires NoSpace(domain) && '\n' !in defaultTtl
    requires RecordLine(r, domain, defaultTtl).Some?
    ensures '\n' !in RecordLine(r, domain, defaultTtl).value.1
  {
    var t := RecordLine(r, domain, defaultTtl).value.0;
    FieldsAvoid(r, t, domain, defaultTtl, '\n');
    TabLineAvoidsNewline(ToAbsoluteName(r.name, domain), if IsDigits(r.ttl) then r.ttl else defaultTtl,
                         t, Data(t, Norm(r.value), r.proxied));
  }

  lemma TabLineAvoidsNewline(name: string, ttl: string, t: RType, data: string)
    requires '\n' !in name && '\n' !in ttl && '\n' !in data
    ensures '\n' !in TabLine(name, ttl, t, data)
  {
    var s1 := name + "\t";
    AvoidsConcat(name, "\t", '\n');
    AvoidsConcat(s1, ttl, '\n');
    AvoidsConcat(s1 + ttl, "\tIN\t", '\n');
    var s2 := s1 + ttl + "\tIN\t";
    assert '\n' !in TypeName(t);
    AvoidsConcat(s2, TypeName(t), '\n');
    AvoidsConcat(s2 + TypeName(t), "\t", '\n');
    AvoidsConcat(s2 + TypeName(t) + "\t", data, '\n');
  }

  lemma AvoidsConcat(a: string, b: string, c: char)
    requires c !in a && c !in b
    ensures c !in a + b
  {
  }

  predicate NoNewlines(lines: seq<string>) {
    forall i :: 0 <= i < |lines| ==> '\n' !in lines[i]
  }

  /** The lines the records give hold no line feed. */
  lemma EntriesAvoidNewline(records: seq<Record>, domain: string, defaultTtl: string)
    requires NoSpace(domain) && '\n' !in defaultTtl
    ensures forall e <- Somes(LineOutcomes(records, domain, defaultTtl)) :: '\n' !in e.1
  {
    var os := LineOutcomes(records, domain, defaultTtl);
    var entries := Somes(os);
    forall e | e in entries ensures '\n' !in e.1 {
      var j :| 0 <= j < |entries| && entries[j] == e;
      OriginsSound(os, j);
      LineAvoidsNewline(records[Origins(os)[j]], domain, defaultTtl);
    }
  }

  lemma SectionAvoidsNewline(entries: seq<(RType, string)>, t: RType)
    requires forall e <- entries :: '\n' !in e.1
    ensures NoNewlines(Section(t, Bucket(entries, t)))
  {
    var bucket := Bucket(entries, t);
    forall x | x in bucket ensures '\n' !in x {
      BucketSound(entries, t, x);
    }
    assert '\n' !in TypeName(t);
    var banner := ";; " + TypeName(t) + " Records";
    AvoidsConcat(";; ", TypeName(t), '\n');
    AvoidsConcat(";; " + TypeName(t), " Records", '\n');
    if bucket != [] {
      var sec := Section(t, bucket);
      assert sec == [banner] + bucket + [""];
      forall i | 0 <= i < |sec| ensures '\n' !in sec[i] {
        if 0 < i < |sec| - 1 {
          assert sec[i] == bucket[i - 1];
        }
      }
    }
  }

  lemma NoNewlinesConcat(a: seq<string>, b: seq<string>)
    requires NoNewlines(a) && NoNewlines(b)
    ensures NoNewlines(a + b)
  {
  }

  /** No line of the file holds a line feed when neither the domain, the export time nor any record line does. */
  lemma ZoneLinesAvoidNewline(entries: seq<(RType, string)>, domain: string, stamp: string)
    requires '\n' !in domain && '\n' !in stamp
    requires forall e <- entries :: '\n' !in e.1
    ensures NoNewlines(ZoneLines(entries, domain, stamp))
  {
    var lines := Header(domain, stamp);
    HeaderAvoidsNewline(domain, stamp);
    SectionAvoidsNewline(entries, A);
    NoNewlinesConcat(lines, Section(A, Bucket(entries, A)));
    lines := lines + Section(A, Bucket(entries, A));
    SectionAvoidsNewline(entries, AAAA);
    NoNewlinesConcat(lines, Section(AAAA, Bucket(entries, AAAA)));
    lines := lines + Section(AAAA, Bucket(entries, AAAA));
    SectionAvoidsNewline(entries, CNAME);
    NoNewlinesConcat(lines, Section(CNAME, Bucket(entries, CNAME)));
    lines := lines + Section(CNAME, Bucket(entries, CNAME));
    SectionAvoidsNewline(entries, MX);
    NoNewlinesConcat(lines, Section(MX, Bucket(entries, MX)));
    lines := lines + Section(MX, Bucket(entries, MX));
    SectionAvoidsNewline(entries, SRV);
    NoNewlinesConcat(lines, Section(SRV, Bucket(entries, SRV)));
    lines := lines + Section(SRV, Bucket(entries, SRV));
    SectionAvoidsNewline(entries, TXT);
    NoNewlinesConcat(lines, Section(TXT, Bucket(entries, TXT)));
    lines := lines + Section(TXT, Bucket(entries, TXT));
    SectionAvoidsNewline(entries, CAA);
    NoNewlinesConcat(lines, Section(CAA, Bucket(entries, CAA)));
    lines := lines + Section(CAA, Bucket(entries, CAA));
    assert lines == ZoneLines(entries, domain, stamp);
  }

  lemma HeaderAvoidsNewline(domain: string, stamp: string)
    requires '\n' !in domain && '\n' !in stamp
    ensures NoNewlines(Header(domain, stamp))
  {
    AvoidsConcat(";; Domain:     ", domain, '\n');
    AvoidsConcat(";; Domain:     " + domain, ".", '\n');
    AvoidsConcat(";; Exported:   ", stamp, '\n');
    GeneratedNoteAvoidsNewline();
    ReviewNoteAvoidsNewline();
  }

  lemma ReviewNoteAvoidsNewline()
    ensures '\n' !in ReviewNote
  {
    var front, back := ";; Review records ", "before production use.";
    assert '\n' !in front;
    assert '\n' !in back;
    AvoidsConcat(front, back, '\n');
  }

  lemma GeneratedNoteAvoidsNewline()
    ensures '\n' !in GeneratedNote
  {
    var front, back := ";; This file is generated ", "from cPanel HTML table data.";
    assert '\n' !in front;
    assert '\n' !in back;
    AvoidsConcat(front, back, '\n');
  }

  /**
    Read back line by line, the file is the header and the sections followed
    by one empty piece after the final line feed, when neither the export
    time nor the default TTL holds a line feed.
   */
  lemma OutputLines(records: seq<Record>, domainOverride: string, defaultTtl: string,
                    lastGeneratedDomain: string, stamp: string)
    requires '\n' !in stamp && '\n' !in defaultTtl
    ensures var z := BuildZoneSpec(records, domainOverride, defaultTtl, lastGeneratedDomain, stamp);
      Split(z.output, '\n') == ZoneLines(Somes(LineOutcomes(records, z.domain, defaultTtl)), z.domain, stamp) + [""]
  {
    var domain := ZoneDomain(domainOverride, lastGeneratedDomain);
    DomainCharsNoSpace(domain);
    assert '\n' !in domain;
    var entries := Somes(LineOutcomes(records, domain, defaultTtl));
    EntriesAvoidNewline(records, domain, defaultTtl);
    ZoneLinesAvoidNewline(entries, domain, stamp);
    var lines := ZoneLines(entries, domain, stamp);
    var all := lines + [""];
    JoinAppend(lines, [""], '\n');
    assert Join(all, '\n') == Join(lines, '\n') + "\n";
    forall p | p in all ensures '\n' !in p {
      var k :| 0 <= k < |all| && all[k] == p;
      if k < |lines| {
        assert all[k] == lines[k];
      }
    }
    SplitJoin(all, '\n');
  }

  /** Every entry's line is in the file. */
  lemma ZoneListsEntry(entries: seq<(RType, string)>, domain: string, stamp: string, j: nat)
    requires j < |entries|
    ensures entries[j].1 in ZoneLines(entries, domain, stamp)
  {
    var t := entries[j].0;
    BucketComplete(entries, j);
    assert entries[j].1 in Section(t, Bucket(entries, t));
  }

  /** Every record that has a known type and a value gets its line into the file. */
  lemma ZoneListsRecord(records: seq<Record>, domain: string, defaultTtl: string, stamp: string, i: nat)
    requires i < |records| && RecordLine(records[i], domain, defaultTtl).Some?
    ensures RecordLine(records[i], domain, defaultTtl).value.1
            in ZoneLines(Somes(LineOutcomes(records, domain, defaultTtl)), domain, stamp)
  {
    var os := LineOutcomes(records, domain, defaultTtl);
    OriginsComplete(os, i);
    var j :| 0 <= j < |Origins(os)| && Origins(os)[j] == i;
    OriginsSound(os, j);
    ZoneListsEntry(Somes(os), domain, stamp, j);
  }
}
