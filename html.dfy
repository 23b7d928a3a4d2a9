/**
  The extractor for the cPanel zone editor's HTML table. The table itself is
  not parsed here: each row arrives as the text of its Name, Type, TTL and
  Record cells (the TTL cell may be missing) and, for TXT rows, the text of
  each fragment of the Record cell's TXT detail block.
 */
module Html {
  import opened Wrappers
  import opened Text
  import opened Names
  import opened Pattern
  import opened Quoting
  import opened Records

  /** One `tr.recordTableRow`: its cells' `textContent`, and the TXT fragments of its Record cell. */
  datatype Row = Row(name: string, rtype: string, ttl: Option<string>, record: string, fragments: seq<string>)

  /** A fragment after `norm` and the stripping of outer quote runs, if it is kept. */
  function FragmentPart(fragment: string): (r: Option<string>)
    ensures r.Some? ==> r.value != [] && r.value != "path=/" && r.value[0] != '"' && r.value[|r.value| - 1] != '"'
  {
    var v := Strip(Norm(fragment), '"');
    if v != [] && v != "path=/" then Some(v) else None
  }

  /** What each fragment gives, in order. */
  function FragmentParts(fragments: seq<string>): (os: seq<Option<string>>)
    ensures |os| == |fragments|
    ensures forall i :: 0 <= i < |fragments| ==> os[i] == FragmentPart(fragments[i])
  {
    seq(|fragments|, i requires 0 <= i < |fragments| => FragmentPart(fragments[i]))
  }

  /** `extractTxtParts(recordCell)`: the kept fragments, or else the whole cell's text when it is not blank. */
  function TxtCellParts(fragments: seq<string>, cell: string): seq<string> {
    var parts := Somes(FragmentParts(fragments));
    if parts != [] then parts
    else if Norm(cell) != [] then [Norm(cell)]
    else []
  }

  /** The TXT value of a row: its parts quoted and joined by spaces. */
  function TxtValue(fragments: seq<string>, cell: string): string {
    QuotedList(TxtCellParts(fragments, cell))
  }

  /** The value a row of upper-cased type `t` gives, from its normalised Record text. */
  function RowValue(t: string, recordText: string, fragments: seq<string>, cell: string): string {
    if t == "A" || t == "AAAA" then FirstToken(recordText)
    else if t == "CNAME" then ToFqdn(FirstToken(recordText))
    else if t == "MX" then (match MxValue(recordText) case Some(v) => v case None => [])
    else if t == "SRV" then (match SrvValue(recordText) case Some(v) => v case None => [])
    else if t == "TXT" then TxtValue(fragments, cell)
    else if t == "CAA" then (match CaaValue(recordText) case Some(v) => v case None => [])
    else []
  }

  /** `norm((ttlCell || {}).textContent || defaultTtl)`: a missing or empty TTL cell reads as the default. */
  function RawTtl(ttl: Option<string>, defaultTtl: string): string {
    Norm(if ttl.None? || ttl.value == [] then defaultTtl else ttl.value)
  }

  /** The record a row gives, when its type and value are not empty. */
  function RowRecord(row: Row, domain: string, defaultTtl: string): Option<Record> {
    var name := ToAbsoluteName(Norm(row.name), domain);
    var ttlRaw := RawTtl(row.ttl, defaultTtl);
    var t := ToUpper(Norm(row.rtype));
    var value := RowValue(t, Norm(row.record), row.fragments, row.record);
    if t != [] && value != [] then
      Some(Record(name, if IsDigits(ttlRaw) then ttlRaw else defaultTtl, t, value, InferCfTagAsWritten(name, domain)))
    else None
  }

  /** What each row gives, in row order. */
  function RowOutcomes(rows: seq<Row>, domain: string, defaultTtl: string): (os: seq<Option<Record>>)
    ensures |os| == |rows|
    ensures forall i :: 0 <= i < |rows| ==> os[i] == RowRecord(rows[i], domain, defaultTtl)
  {
    seq(|rows|, i requires 0 <= i < |rows| => RowRecord(rows[i], domain, defaultTtl))
  }

  /** The domain of a table: the sanitised override, else the first row's base domain. */
  function TableDomain(rows: seq<Row>, domainOverride: string): string
    requires |rows| > 0
  {
    SanitizeDomain(domainOverride, GetBaseDomain(Norm(rows[0].name)))
  }

  /** `parseRecordsFromHtml(rows, domainOverride, defaultTtl)`. */
  function ExtractHtml(rows: seq<Row>, domainOverride: string, defaultTtl: string): Parsed
    requires |rows| > 0
  {
    var domain := TableDomain(rows, domainOverride);
    Parsed(domain, Somes(RowOutcomes(rows, domain, defaultTtl)))
  }

  /** With a digit-only default, a row keeps its TTL cell's text exactly when that text is all digits, and takes the default otherwise. */
  lemma TtlRule(row: Row, domain: string, defaultTtl: string)
    requires IsDigits(defaultTtl)
    ensures var r := RowRecord(row, domain, defaultTtl);
      r.Some? ==> r.value.ttl == (if row.ttl.Some? && IsDigits(Norm(row.ttl.value)) then Norm(row.ttl.value) else defaultTtl)
  {
    NormalOfNoSpace(defaultTtl);
    NormFixesNormal(defaultTtl);
    if row.ttl.Some? && row.ttl.value == [] {
      assert Norm([]) == [];
    }
  }

  /** Which values are present: a known type, and cells that supply one. */
  lemma ValuePresent(t: string, text: string, fragments: seq<string>, cell: string)
    requires Normal(text)
    ensures var present := RowValue(t, text, fragments, cell) != [];
      && (ParseType(t).None? ==> !present)
      && (t == "A" || t == "AAAA" || t == "CNAME" ==> (present <==> text != []))
      && (t == "MX" ==> (present <==> MatchMx(text).Some?))
      && (t == "SRV" ==> (present <==> MatchSrv(text).Some?))
      && (t == "CAA" ==> (present <==> MatchCaa(text).Some?))
      && (t == "TXT" ==> (present <==> TxtCellParts(fragments, cell) != []))
  {
    var v := RowValue(t, text, fragments, cell);
    match ParseType(t)
    case None =>
      assert v == [];
    case Some(rt) =>
      TypeNameRoundTrip(rt, t);
      match rt
      case A =>
        FirstTokenPresent(text);
      case AAAA =>
        FirstTokenPresent(text);
      case CNAME =>
        FirstTokenPresent(text);
      case MX =>
        assert v == (match MxValue(text) case Some(v) => v case None => []);
      case SRV =>
        assert v == (match SrvValue(text) case Some(v) => v case None => []);
      case CAA =>
        assert v == (match CaaValue(text) case Some(v) => v case None => []);
      case TXT =>
  }

  /** The first token of a normalised text is empty only when the text is, and so is its absolute form. */
  lemma FirstTokenPresent(text: string)
    requires Normal(text)
    ensures FirstToken(text) != [] <==> text != []
    ensures ToFqdn(FirstToken(text)) != [] <==> text != []
  {
    if text != [] {
      FirstTokenNonEmpty(text);
      NonSpaceOfStart(FirstToken(text));
    }
  }

  /** Which rows give a record: a known type, and a value its cells supply. */
  lemma RowKept(row: Row, domain: string, defaultTtl: string)
    ensures var t, text := ToUpper(Norm(row.rtype)), Norm(row.record);
      var kept := RowRecord(row, domain, defaultTtl).Some?;
      && (ParseType(t).None? ==> !kept)
      && (t == "A" || t == "AAAA" || t == "CNAME" ==> (kept <==> text != []))
      && (t == "MX" ==> (kept <==> MatchMx(text).Some?))
      && (t == "SRV" ==> (kept <==> MatchSrv(text).Some?))
      && (t == "CAA" ==> (kept <==> MatchCaa(text).Some?))
      && (t == "TXT" ==> (kept <==> TxtCellParts(row.fragments, row.record) != []))
  {
    var t, text := ToUpper(Norm(row.rtype)), Norm(row.record);
    ValuePresent(t, text, row.fragments, row.record);
    assert RowRecord(row, domain, defaultTtl).Some? <==> t != [] && RowValue(t, text, row.fragments, row.record) != [];
  }

  /** A TXT row's value reads back as its parts: the kept fragments in order, or else the cell's text. */
  lemma TxtRoundTrip(fragments: seq<string>, cell: string)
    ensures var parts := TxtCellParts(fragments, cell);
      && (TxtValue(fragments, cell) != [] <==> parts != [])
      && (parts != [] ==> ReadQuotedList(TxtValue(fragments, cell)) == Some(parts))
  {
    var parts := TxtCellParts(fragments, cell);
    if parts != [] {
      QuotedListRoundTrip(parts);
    }
  }

  /** The kept fragments are in fragment order, and each is a non-empty text other than `path=/` without outer quotes. */
  lemma FragmentsKept(fragments: seq<string>, j: nat)
    requires j < |Somes(FragmentParts(fragments))|
    ensures var parts, ix := Somes(FragmentParts(fragments)), Origins(FragmentParts(fragments));
      && ix[j] < |fragments|
      && FragmentPart(fragments[ix[j]]) == Some(parts[j])
      && parts[j] != [] && parts[j] != "path=/" && parts[j][0] != '"' && parts[j][|parts[j]| - 1] != '"'
  {
    var os := FragmentParts(fragments);
    OriginsSound(os, j);
    var i := Origins(os)[j];
    assert os[i] == FragmentPart(fragments[i]);
    var part := Somes(os)[j];
    assert FragmentPart(fragments[i]) == Some(part);
  }

  /** Every record of a table is well formed when the default TTL is all digits. */
  lemma RowWellFormed(row: Row, domain: string, defaultTtl: string)
    requires IsDigits(defaultTtl)
    ensures var r := RowRecord(row, domain, defaultTtl); r.Some? ==> WellFormed(r.value, domain)
  {
    var t, text := ToUpper(Norm(row.rtype)), Norm(row.record);
    ValuePresent(t, text, row.fragments, row.record);
    TtlRule(row, domain, defaultTtl);
  }

  /** The table's domain: the override when it is a valid domain, the first row's base domain when the override is empty, and otherwise one of those two, sanitised. */
  lemma ExtractHtmlDomain(rows: seq<Row>, domainOverride: string, defaultTtl: string)
    requires |rows| > 0
    ensures var d, base := ExtractHtml(rows, domainOverride, defaultTtl).domain, GetBaseDomain(Norm(rows[0].name));
      && (ValidDomain(d) || d == base)
      && (ValidDomain(domainOverride) ==> d == domainOverride)
      && (domainOverride == [] ==> d == base)
  {
    var base := GetBaseDomain(Norm(rows[0].name));
    if ValidDomain(domainOverride) {
      SanitizeFixesValid(domainOverride, base);
    }
    if domainOverride == [] {
      SanitizeEmpty(base);
    }
  }

  lemma ExtractHtmlWellFormed(rows: seq<Row>, domainOverride: string, defaultTtl: string)
    requires |rows| > 0 && IsDigits(defaultTtl)
    ensures var p := ExtractHtml(rows, domainOverride, defaultTtl);
      forall r <- p.records :: WellFormed(r, p.domain)
  {
    var p := ExtractHtml(rows, domainOverride, defaultTtl);
    forall j | 0 <= j < |p.records| ensures WellFormed(p.records[j], p.domain) {
      KeptWellFormed(rows, p.domain, defaultTtl, j);
    }
  }

  lemma KeptWellFormed(rows: seq<Row>, domain: string, defaultTtl: string, j: nat)
    requires IsDigits(defaultTtl) && j < |Somes(RowOutcomes(rows, domain, defaultTtl))|
    ensures WellFormed(Somes(RowOutcomes(rows, domain, defaultTtl))[j], domain)
  {
    var os := RowOutcomes(rows, domain, defaultTtl);
    OriginsSound(os, j);
    var i := Origins(os)[j];
    RowWellFormed(rows[i], domain, defaultTtl);
    assert os[i] == RowRecord(rows[i], domain, defaultTtl);
  }

  /** Records keep the order of their rows: the `j`-th and `l`-th records come from rows `a < b`. */
  lemma ExtractHtmlOrder(rows: seq<Row>, domainOverride: string, defaultTtl: string, j: nat, l: nat)
    requires |rows| > 0 && j < l < |ExtractHtml(rows, domainOverride, defaultTtl).records|
    ensures var p := ExtractHtml(rows, domainOverride, defaultTtl);
      var ix := Origins(RowOutcomes(rows, p.domain, defaultTtl));
      && ix[j] < ix[l] < |rows|
      && RowRecord(rows[ix[j]], p.domain, defaultTtl) == Some(p.records[j])
      && RowRecord(rows[ix[l]], p.domain, defaultTtl) == Some(p.records[l])
  {
    var p := ExtractHtml(rows, domainOverride, defaultTtl);
    var os := RowOutcomes(rows, p.domain, defaultTtl);
    var ix := Origins(os);
    assert p.records == Somes(os);
    OriginsSound(os, j);
    OriginsSound(os, l);
    OriginsIncreasing(os, j, l);
    assert os[ix[j]] == RowRecord(rows[ix[j]], p.domain, defaultTtl);
    assert os[ix[l]] == RowRecord(rows[ix[l]], p.domain, defaultTtl);
  }

  /** No row with a record is dropped. */
  lemma ExtractHtmlComplete(rows: seq<Row>, domainOverride: string, defaultTtl: string, i: nat)
    requires i < |rows|
    ensures var p := ExtractHtml(rows, domainOverride, defaultTtl);
      var r := RowRecord(rows[i], p.domain, defaultTtl);
      r.Some? ==> r.value in p.records
  {
    var p := ExtractHtml(rows, domainOverride, defaultTtl);
    var os := RowOutcomes(rows, p.domain, defaultTtl);
    if os[i].Some? {
      OriginsComplete(os, i);
      var j :| 0 <= j < |Origins(os)| && Origins(os)[j] == i;
      OriginsSound(os, j);
    }
  }

  /** The fragment loop of `extractTxtParts`. */
  method KeepFragments(fragments: seq<string>) returns (parts: seq<string>)
    ensures parts == Somes(FragmentParts(fragments))
  {
    ghost var kept := FragmentParts(fragments);
    parts := [];
    var i := 0;
    while i < |fragments|
      invariant 0 <= i <= |fragments|
      invariant parts == Somes(kept[..i])
    {
      SomesStep(kept, i);
      var part := FragmentPart(fragments[i]);
      assert part == kept[i];
      if part.Some? {
        parts := parts + [part.value];
      }
      i := i + 1;
    }
    assert kept[..|fragments|] == kept;
  }

  /** `extractTxtParts`: the kept fragments, with the cell's text as the fallback. */
  method ExtractTxtParts(fragments: seq<string>, cell: string) returns (parts: seq<string>)
    ensures parts == TxtCellParts(fragments, cell)
  {
    parts := KeepFragments(fragments);
    if |parts| == 0 {
      var fallback := Norm(cell);
      if fallback != [] {
        parts := parts + [fallback];
      }
    }
  }

  /** The value chain of the row loop's body: what a row of upper-cased type `t` gives. */
  method ParseValue(t: string, recordText: string, fragments: seq<string>, cell: string) returns (value: string)
    ensures value == RowValue(t, recordText, fragments, cell)
  {
    value := [];
    if t == "A" || t == "AAAA" {
      value := FirstToken(recordText);
    } else if t == "CNAME" {
      value := ToFqdn(FirstToken(recordText));
    } else if t == "MX" {
      var mx := MxValue(recordText);
      value := if mx.Some? then mx.value else [];
    } else if t == "SRV" {
      var srv := SrvValue(recordText);
      value := if srv.Some? then srv.value else [];
    } else if t == "TXT" {
      var parts := ExtractTxtParts(fragments, cell);
      value := QuotedList(parts);
    } else if t == "CAA" {
      var caa := CaaValue(recordText);
      value := if caa.Some? then caa.value else [];
    }
  }

  /** The body of the row loop: one row's name, TTL, type, value and proxy flag, and the record if type and value are present. */
  method ParseRow(row: Row, domain: string, defaultTtl: string) returns (record: Option<Record>)
    ensures record == RowRecord(row, domain, defaultTtl)
  {
    var nameRaw := Norm(row.name);
    var ttlRaw := RawTtl(row.ttl, defaultTtl);
    var t := ToUpper(Norm(row.rtype));
    var recordText := Norm(row.record);
    var name := ToAbsoluteName(nameRaw, domain);
    var ttl := if IsDigits(ttlRaw) then ttlRaw else defaultTtl;
    var value := ParseValue(t, recordText, row.fragments, row.record);
    var proxied := InferCfTagAsWritten(name, domain);
    if t != [] && value != [] {
      record := Some(Record(name, ttl, t, value, proxied));
    } else {
      record := None;
    }
  }

  /** The row loop: one record per row with a type and a value, in row order. */
  method ParseRows(rows: seq<Row>, domain: string, defaultTtl: string) returns (parsed: seq<Record>)
    ensures parsed == Somes(RowOutcomes(rows, domain, defaultTtl))
  {
    ghost var outcomes := RowOutcomes(rows, domain, defaultTtl);
    parsed := [];
    var i := 0;
    while i < |rows|
      invariant 0 <= i <= |rows|
      invariant parsed == Somes(outcomes[..i])
    {
      SomesStep(outcomes, i);
      var record := ParseRow(rows[i], domain, defaultTtl);
      assert record == outcomes[i];
      if record.Some? {
        parsed := parsed + [record.value];
      }
      i := i + 1;
    }
    assert outcomes[..|rows|] == outcomes;
  }

  /** `parseRecordsFromHtml`: the domain from the first row, then the records of the rows. */
  method ParseHtml(rows: seq<Row>, domainOverride: string, defaultTtl: string) returns (result: Parsed)
    requires |rows| > 0
    ensures result == ExtractHtml(rows, domainOverride, defaultTtl)
  {
    var firstName := Norm(rows[0].name);
    var domain := SanitizeDomain(domainOverride, GetBaseDomain(firstName));
    var parsed := ParseRows(rows, domain, defaultTtl);
    return Parsed(domain, parsed);
  }
}
