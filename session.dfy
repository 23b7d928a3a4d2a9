/**
  The editable record list behind the importer's table: edits typed into the
  table's cells, the delete button, and the form that adds one record at the
  top. The table's cells are given as a list of edits, one per editor field,
  in document order; the form as the values of its fields.
 */
module Editor {
  import opened Wrappers
  import opened Text
  import opened Names
  import opened Quoting
  import opened Records

  /** The editor field a table cell edits (its `data-key`). */
  datatype Field = Name | Ttl | Type | Value | Proxied

  /** One editor field: the row it belongs to (`data-index`), its key and its current text. */
  datatype Edit = Edit(index: int, field: Field, text: string)

  /** Field `f` of `r` shows the editor text `text`: text fields hold it normalised, the proxy flag is whether it reads `true`. */
  predicate Shows(r: Record, f: Field, text: string) {
    match f
    case Name => r.name == Norm(text)
    case Ttl => r.ttl == Norm(text)
    case Type => r.rtype == Norm(text)
    case Value => r.value == Norm(text)
    case Proxied => r.proxied == (text == "true")
  }

  /** Field `f` of `r` and of `s` agree. */
  predicate SameField(r: Record, s: Record, f: Field) {
    match f
    case Name => r.name == s.name
    case Ttl => r.ttl == s.ttl
    case Type => r.rtype == s.rtype
    case Value => r.value == s.value
    case Proxied => r.proxied == s.proxied
  }

  /** `next[idx][key] = …`: one field overwritten from the editor. */
  function SetField(r: Record, f: Field, text: string): (s: Record)
    ensures Shows(s, f, text)
    ensures forall g: Field :: g != f ==> SameField(s, r, g)
  {
    match f
    case Name => r.(name := Norm(text))
    case Ttl => r.(ttl := Norm(text))
    case Type => r.(rtype := Norm(text))
    case Value => r.(value := Norm(text))
    case Proxied => r.(proxied := text == "true")
  }

  /** One editor field applied to the copied list; a field whose row is not in the list is skipped. */
  function ApplyEdit(rs: seq<Record>, e: Edit): (out: seq<Record>)
    ensures |out| == |rs|
    ensures forall i :: 0 <= i < |rs| && i != e.index ==> out[i] == rs[i]
  {
    if 0 <= e.index < |rs| then rs[e.index := SetField(rs[e.index], e.field, e.text)] else rs
  }

  /** The editor fields applied in document order. */
  function ApplyEdits(rs: seq<Record>, edits: seq<Edit>): (out: seq<Record>)
    ensures |out| == |rs|
    decreases |edits|
  {
    if edits == [] then rs else ApplyEdit(ApplyEdits(rs, edits[..|edits| - 1]), edits[|edits| - 1])
  }

  /** `record.name && record.type && record.value`. */
  predicate Complete(r: Record) {
    r.name != [] && r.rtype != [] && r.value != []
  }

  /** `next.filter(…)`: the complete records, in order. */
  function KeepComplete(rs: seq<Record>): (out: seq<Record>)
    ensures |out| <= |rs|
    ensures forall r <- out :: Complete(r)
    decreases |rs|
  {
    if rs == [] then []
    else
      var n := |rs| - 1;
      KeepComplete(rs[..n]) + (if Complete(rs[n]) then [rs[n]] else [])
  }

  /** The last editor field for a row and key decides that field. */
  lemma {:induction false} LastEditWins(rs: seq<Record>, edits: seq<Edit>, k: nat)
    requires k < |edits| && 0 <= edits[k].index < |rs|
    requires forall m :: k < m < |edits| ==> edits[m].index != edits[k].index || edits[m].field != edits[k].field
    ensures Shows(ApplyEdits(rs, edits)[edits[k].index], edits[k].field, edits[k].text)
    decreases |edits|
  {
    var n := |edits| - 1;
    var before := ApplyEdits(rs, edits[..n]);
    var e := edits[k];
    if k < n {
      assert edits[..n][k] == e;
      forall m | k < m < n ensures edits[..n][m].index != e.index || edits[..n][m].field != e.field {
        assert edits[..n][m] == edits[m];
      }
      LastEditWins(rs, edits[..n], k);
      if edits[n].index == e.index {
        assert edits[n].field != e.field;
        assert SameField(ApplyEdits(rs, edits)[e.index], before[e.index], e.field);
      }
    }
  }

  /** A field no editor field addresses keeps its value. */
  lemma {:induction false} UntouchedFieldKept(rs: seq<Record>, edits: seq<Edit>, i: nat, f: Field)
    requires i < |rs|
    requires forall m :: 0 <= m < |edits| ==> edits[m].index != i || edits[m].field != f
    ensures SameField(ApplyEdits(rs, edits)[i], rs[i], f)
    decreases |edits|
  {
    if edits != [] {
      var n := |edits| - 1;
      forall m | 0 <= m < n ensures edits[..n][m].index != i || edits[..n][m].field != f {
        assert edits[..n][m] == edits[m];
      }
      UntouchedFieldKept(rs, edits[..n], i, f);
      var before := ApplyEdits(rs, edits[..n]);
      if edits[n].index == i {
        assert SameField(ApplyEdits(rs, edits)[i], before[i], f);
      }
    }
  }

  /** A record is kept exactly when it is complete. */
  lemma {:induction false} KeepCompleteMembers(rs: seq<Record>, r: Record)
    ensures r in KeepComplete(rs) <==> r in rs && Complete(r)
    decreases |rs|
  {
    if rs != [] {
      var n := |rs| - 1;
      KeepCompleteMembers(rs[..n], r);
      assert rs == rs[..n] + [rs[n]];
    }
  }

  /** A list of complete records passes the filter unchanged, so filtering twice is filtering once. */
  lemma {:induction false} KeepCompleteFixes(rs: seq<Record>)
    requires forall r <- rs :: Complete(r)
    ensures KeepComplete(rs) == rs
    decreases |rs|
  {
    if rs != [] {
      var n := |rs| - 1;
      KeepCompleteFixes(rs[..n]);
      assert rs == rs[..n] + [rs[n]];
    }
  }

  /** `records.splice(idx, 1)`'s start: a negative index counts from the end, clamped at 0. */
  function SpliceStart(len: nat, idx: int): (k: nat)
    ensures idx >= 0 ==> k == idx
    ensures idx < 0 ==> k < len || len == 0
  {
    if idx >= 0 then idx else if len + idx < 0 then 0 else len + idx
  }

  /** `rs` without its element at `k`; unchanged when `k` is past the end. */
  function RemoveAt(rs: seq<Record>, k: nat): seq<Record> {
    if k < |rs| then rs[..k] + rs[k + 1..] else rs
  }

  /** Removing keeps every other element in order and drops exactly the one at `k`. */
  lemma RemoveAtSpec(rs: seq<Record>, k: nat)
    ensures k < |rs| ==>
      && |RemoveAt(rs, k)| == |rs| - 1
      && (forall j :: 0 <= j < k ==> RemoveAt(rs, k)[j] == rs[j])
      && (forall j :: k <= j < |rs| - 1 ==> RemoveAt(rs, k)[j] == rs[j + 1])
      && multiset(RemoveAt(rs, k)) + multiset{rs[k]} == multiset(rs)
    ensures k >= |rs| ==> RemoveAt(rs, k) == rs
  {
    if k < |rs| {
      assert rs == rs[..k] + [rs[k]] + rs[k + 1..];
    }
  }

  /** The add-record form's fields, as typed. */
  datatype Form = Form(domain: string, rtype: string, name: string, ttl: string, defaultTtl: string,
                       mainValue: string, proxied: bool, mxPriority: string, srvPriority: string,
                       srvWeight: string, srvPort: string, txtContent: string, caaFlag: string, caaTag: string)

  /** JavaScript's `text || fallback` on strings. */
  function Or(text: string, fallback: string): (r: string)
    ensures fallback != [] ==> r != []
  {
    if text == [] then fallback else text
  }

  /** The domain the form resolves names against: the sanitised domain field, else the last zone's domain, else `example.com`. */
  function FormDomain(form: Form, lastGeneratedDomain: string): string {
    SanitizeDomain(form.domain, Or(lastGeneratedDomain, "example.com"))
  }

  /** The form's TTL: `AUTO` takes the normalised default TTL, else 3600. */
  function FormTtl(form: Form): (ttl: string)
    ensures form.ttl == "AUTO" ==> ttl != []
  {
    if form.ttl == "AUTO" then Or(Norm(form.defaultTtl), "3600") else form.ttl
  }

  /** The record's name: the name field (`@` when empty) resolved against the form's domain. */
  function FormName(form: Form, lastGeneratedDomain: string): string {
    ToAbsoluteName(Norm(Or(form.name, "@")), FormDomain(form, lastGeneratedDomain))
  }

  /** The form's domain is never empty: the domain field when it is valid, else the last zone's domain or `example.com` when the field is empty, else one of them, sanitised. */
  lemma FormDomainRule(form: Form, lastGeneratedDomain: string)
    ensures var d, fallback := FormDomain(form, lastGeneratedDomain), Or(lastGeneratedDomain, "example.com");
      && d != []
      && (ValidDomain(d) || d == fallback)
      && (ValidDomain(form.domain) ==> d == form.domain)
      && (form.domain == [] ==> d == fallback)
  {
    var fallback := Or(lastGeneratedDomain, "example.com");
    if ValidDomain(form.domain) {
      SanitizeFixesValid(form.domain, fallback);
    }
    if form.domain == [] {
      SanitizeEmpty(fallback);
    }
  }

  /** The record's name is absolute; a blank name field stands for the domain itself. */
  lemma FormNameRule(form: Form, lastGeneratedDomain: string)
    ensures EndsWith(FormName(form, lastGeneratedDomain), ".")
    ensures Norm(form.name) == [] ==> FormName(form, lastGeneratedDomain) == FormDomain(form, lastGeneratedDomain) + "."
  {
    if Norm(form.name) == [] {
      var text := Norm(Or(form.name, "@"));
      if form.name == [] {
        assert Normal("@");
        NormFixesNormal("@");
        assert DropFinalDot(text) == "@";
      } else {
        assert DropFinalDot(text) == [];
      }
    }
  }

  /** Lines of the TXT content, each normalised, the empty ones dropped. */
  function TxtLines(content: string): (parts: seq<string>)
    ensures forall p <- parts :: p != [] && Normal(p)
  {
    NonEmptyNormal(Split(content, '\n'))
  }

  function NonEmptyNormal(pieces: seq<string>): (parts: seq<string>)
    ensures forall p <- parts :: p != [] && Normal(p)
    decreases |pieces|
  {
    if pieces == [] then []
    else
      var n := |pieces| - 1;
      var p := Norm(pieces[n]);
      NonEmptyNormal(pieces[..n]) + (if p == [] then [] else [p])
  }

  /** The strings a TXT record gets: one per non-empty content line, else the main value, else none. */
  function TxtParts(content: string, mainValue: string): (parts: seq<string>)
    ensures forall p <- parts :: p != []
  {
    var lines := TxtLines(content);
    if lines != [] then lines else if Norm(mainValue) != [] then [Norm(mainValue)] else []
  }

  /** The MX value: the priority (10 when empty), a space and the absolute mail server; nothing without a mail server. */
  function MxFormValue(form: Form): string {
    var main := Norm(form.mainValue);
    if main == [] then [] else Norm(Or(form.mxPriority, "10")) + " " + ToFqdn(main)
  }

  /** The SRV value: priority, weight and port (0, 0 and 443 when empty) and the absolute target; nothing without a target. */
  function SrvFormValue(form: Form): string {
    var main := Norm(form.mainValue);
    if main == [] then []
    else Norm(Or(form.srvPriority, "0")) + " " + Norm(Or(form.srvWeight, "0")) + " "
         + Norm(Or(form.srvPort, "443")) + " " + ToFqdn(main)
  }

  /** The TXT value: its strings quoted and joined by spaces; nothing without a string. */
  function TxtFormValue(form: Form): string {
    var parts := TxtParts(form.txtContent, form.mainValue);
    if parts == [] then [] else QuotedList(parts)
  }

  /** The CAA value: flag (0 when empty), tag (`issue` when empty) and the quoted main value; nothing without a main value. */
  function CaaFormValue(form: Form): string {
    var main := Norm(form.mainValue);
    if main == [] then []
    else Norm(Or(form.caaFlag, "0")) + " " + Norm(Or(form.caaTag, "issue")) + " " + QuotedTxt(main)
  }

  /**
    The value the form builds for type text `t`: the value of the record type
    it names, nothing for a type the form does not offer.
   */
  function FormValue(t: string, form: Form): string {
    match ParseType(t)
    case Some(rt) => TypedValue(rt, form)
    case None => []
  }

  /** The value for a record of type `rt`, by cases on the type. */
  function TypedValue(rt: RType, form: Form): string {
    match rt
    case TXT => TxtFormValue(form)
    case A => Norm(form.mainValue)
    case AAAA => Norm(form.mainValue)
    case CNAME => ToFqdn(Norm(form.mainValue))
    case MX => MxFormValue(form)
    case SRV => SrvFormValue(form)
    case CAA => CaaFormValue(form)
  }

  /** TXT and CAA records are never proxied; the other types keep the checkbox. */
  function FormProxied(t: string, form: Form): bool {
    if t == "TXT" || t == "CAA" then false else form.proxied
  }

  /** The record the form adds with the value `value`; nothing when the name, the type or the value is empty. */
  function RecordOfForm(form: Form, lastGeneratedDomain: string, value: string): (r: Option<Record>)
    ensures r.Some? <==> value != [] && form.rtype != []
    ensures r.Some? ==> && r.value.name == FormName(form, lastGeneratedDomain) && r.value.value == value
                        && r.value.rtype == form.rtype && r.value.ttl == FormTtl(form)
                        && r.value.proxied == FormProxied(form.rtype, form)
  {
    var name := FormName(form, lastGeneratedDomain);
    if name == [] || form.rtype == [] || value == [] then None
    else Some(Record(name, FormTtl(form), form.rtype, value, FormProxied(form.rtype, form)))
  }

  /** The record the corrected builder adds, or nothing when a required field is missing. */
  function FormRecord(form: Form, lastGeneratedDomain: string): Option<Record> {
    RecordOfForm(form, lastGeneratedDomain, FormValue(form.rtype, form))
  }

  /** What each type requires: the TXT content or main value for TXT, the main value for every other type. */
  predicate Filled(rt: RType, form: Form) {
    if rt == TXT then TxtParts(form.txtContent, form.mainValue) != [] else Norm(form.mainValue) != []
  }

  /** A value is built exactly when the type's required input is there. */
  lemma TypedValuePresent(rt: RType, form: Form)
    ensures TypedValue(rt, form) != [] <==> Filled(rt, form)
  {
    var main := Norm(form.mainValue);
    if rt == CNAME && main != [] {
      assert ToFqdn(main) != [] by { NormFixesNormal(main); }
    }
  }

  /** A record is added exactly when the form's type is one of the seven and its required input is there. */
  lemma FormAddsWhenFilled(form: Form, lastGeneratedDomain: string)
    ensures FormRecord(form, lastGeneratedDomain).Some? <==>
      ParseType(form.rtype).Some? && Filled(ParseType(form.rtype).value, form)
  {
    assert FormName(form, lastGeneratedDomain) != [];
    match ParseType(form.rtype)
    case None =>
      assert FormValue(form.rtype, form) == [];
    case Some(rt) =>
      TypeNameRoundTrip(rt, form.rtype);
      assert FormValue(form.rtype, form) == TypedValue(rt, form);
      TypedValuePresent(rt, form);
  }

  /** An added record has an absolute name, a value and the form's type; TXT and CAA records are never proxied, A, AAAA and CNAME records follow the box. */
  lemma FormRecordShape(form: Form, lastGeneratedDomain: string)
    requires FormRecord(form, lastGeneratedDomain).Some?
    ensures var r := FormRecord(form, lastGeneratedDomain).value;
      && EndsWith(r.name, ".") && r.value != [] && ParseType(r.rtype).Some? && r.rtype == form.rtype
      && (form.rtype == "TXT" || form.rtype == "CAA" ==> !r.proxied)
      && (form.rtype == "A" || form.rtype == "AAAA" || form.rtype == "CNAME" ==> r.proxied == form.proxied)
      && (form.ttl == "AUTO" ==> r.ttl == Or(Norm(form.defaultTtl), "3600"))
  {
    var t := form.rtype;
    assert FormValue(t, form) != [];
    assert ParseType(t).Some?;
  }

  /** A TXT value reads back as its strings, one per non-empty line of the content. */
  lemma TxtValueRoundTrip(form: Form)
    requires Filled(TXT, form)
    ensures ReadQuotedList(TypedValue(TXT, form)) == Some(TxtParts(form.txtContent, form.mainValue))
  {
    var parts := TxtParts(form.txtContent, form.mainValue);
    TxtValueIs(form);
    QuotedListRoundTrip(parts);
  }

  lemma TxtValueIs(form: Form)
    requires Filled(TXT, form)
    ensures TypedValue(TXT, form) == QuotedList(TxtParts(form.txtContent, form.mainValue))
  {
  }

  /** A CAA value reads back as the flag, the tag and the main value. */
  lemma CaaValueRoundTrip(form: Form)
    requires Filled(CAA, form)
    requires ' ' !in Norm(Or(form.caaFlag, "0")) && ' ' !in Norm(Or(form.caaTag, "issue"))
    ensures ReadCaa(TypedValue(CAA, form))
            == Some((Norm(Or(form.caaFlag, "0")), Norm(Or(form.caaTag, "issue")), Norm(form.mainValue)))
  {
    CaaFields(form);
    ReadCaaOf(Norm(Or(form.caaFlag, "0")), Norm(Or(form.caaTag, "issue")), Norm(form.mainValue));
  }

  lemma CaaFields(form: Form)
    requires Filled(CAA, form)
    ensures TypedValue(CAA, form)
            == Norm(Or(form.caaFlag, "0")) + " " + Norm(Or(form.caaTag, "issue")) + " " + QuotedTxt(Norm(form.mainValue))
  {
    assert TypedValue(CAA, form) == CaaFormValue(form);
  }

  /** An MX value is the priority and the absolute mail server, split by one space. */
  lemma MxValueFields(form: Form)
    requires Filled(MX, form) && ' ' !in Norm(Or(form.mxPriority, "10"))
    requires ' ' !in Norm(form.mainValue)
    ensures Split(TypedValue(MX, form), ' ') == [Norm(Or(form.mxPriority, "10")), ToFqdn(form.mainValue)]
    ensures EndsWith(ToFqdn(form.mainValue), ".") || IsIPv4(ToFqdn(form.mainValue)) || IsHexAddress(ToFqdn(form.mainValue))
  {
    var main := Norm(form.mainValue);
    NormIdempotent(form.mainValue);
    assert ' ' !in ToFqdn(main);
    SplitJoinTwo(Norm(Or(form.mxPriority, "10")), ToFqdn(main), ' ');
  }

  /** `addRecordFromForm` as written: the TXT content normalised before it is split at line feeds, and no check that the main value is there. */
  function TypedValueAsWritten(rt: RType, form: Form): string {
    var main := Norm(form.mainValue);
    match rt
    case A => main
    case AAAA => main
    case CNAME => ToFqdn(main)
    case MX => Norm(Or(form.mxPriority, "10")) + " " + ToFqdn(main)
    case SRV =>
      Norm(Or(form.srvPriority, "0")) + " " + Norm(Or(form.srvWeight, "0")) + " "
      + Norm(Or(form.srvPort, "443")) + " " + ToFqdn(main)
    case TXT =>
      // The text is normalised, so it holds no line feed and splitting it at
      // runs of line feeds gives the one piece `Split` gives.
      var txt := Or(Norm(form.txtContent), main);
      if txt == [] then []
      else
        var pieces := Split(txt, '\n');
        QuotedList(seq(|pieces|, i requires 0 <= i < |pieces| => Norm(pieces[i])))
    case CAA =>
      Norm(Or(form.caaFlag, "0")) + " " + Norm(Or(form.caaTag, "issue")) + " " + QuotedTxt(main)
  }

  /** The value `addRecordFromForm` builds for type text `t`, as written; nothing for a type the form does not offer. */
  function FormValueAsWritten(t: string, form: Form): string {
    match ParseType(t)
    case Some(rt) => TypedValueAsWritten(rt, form)
    case None => []
  }

  /** The record `addRecordFromForm` puts at the top of the list, as written, or nothing. */
  function FormRecordAsWritten(form: Form, lastGeneratedDomain: string): Option<Record> {
    RecordOfForm(form, lastGeneratedDomain, FormValueAsWritten(form.rtype, form))
  }

  /**
    What the written builder needs before it adds a record: the main value for
    A, AAAA and CNAME, the TXT content or the main value for TXT, and nothing
    for MX, SRV and CAA, whose values always hold their separating spaces.
   */
  predicate FilledAsWritten(rt: RType, form: Form) {
    match rt
    case TXT => Or(Norm(form.txtContent), Norm(form.mainValue)) != []
    case MX => true
    case SRV => true
    case CAA => true
    case _ => Norm(form.mainValue) != []
  }

  /** A normalised text holds no line feed. */
  lemma NormalNoLineFeed(t: string)
    requires Normal(t)
    ensures '\n' !in t
  {
    if '\n' in t {
      var i :| 0 <= i < |t| && t[i] == '\n';
      assert IsSpace(t[i]);
    }
  }

  /** The written TXT value of a form is the one quoted string `txt`, the content or else the main value. */
  lemma AsWrittenTxtOf(f: Form, txt: string)
    requires Or(Norm(f.txtContent), Norm(f.mainValue)) == txt && txt != []
    ensures TypedValueAsWritten(TXT, f) == QuotedList([txt])
  {
    assert Normal(txt);
    NormalNoLineFeed(txt);
    assert Split(txt, '\n') == [txt] by {
      SplitPrefix(txt, [], '\n');
      assert txt + [] == txt;
    }
    NormFixesNormal(txt);
    var one := seq(1, i requires 0 <= i < 1 => Norm([txt][i]));
    assert one == [txt];
  }

  /** As written, a value is built exactly when the type's few demands are met. */
  lemma AsWrittenValuePresent(rt: RType, form: Form)
    ensures TypedValueAsWritten(rt, form) != [] <==> FilledAsWritten(rt, form)
  {
    var main := Norm(form.mainValue);
    if rt == CNAME && main != [] {
      assert ToFqdn(main) != [] by { NormFixesNormal(main); }
    } else if rt == TXT {
      var txt := Or(Norm(form.txtContent), main);
      if txt != [] {
        AsWrittenTxtOf(form, txt);
        QuotedListRoundTrip([txt]);
      }
    }
  }

  /** As written, a record is added exactly when the form's type is one of the seven and the type's demands are met. */
  lemma AsWrittenAddsWhenFilled(form: Form, lastGeneratedDomain: string)
    ensures FormRecordAsWritten(form, lastGeneratedDomain).Some? <==>
      ParseType(form.rtype).Some? && FilledAsWritten(ParseType(form.rtype).value, form)
  {
    match ParseType(form.rtype)
    case None =>
      assert FormValueAsWritten(form.rtype, form) == [];
    case Some(rt) =>
      TypeNameRoundTrip(rt, form.rtype);
      assert FormValueAsWritten(form.rtype, form) == TypedValueAsWritten(rt, form);
      AsWrittenValuePresent(rt, form);
  }

  /**
    An added record has an absolute name, a value, the form's type and TTL;
    TXT and CAA records are never proxied, the other types follow the box.
   */
  lemma AsWrittenRecordShape(form: Form, lastGeneratedDomain: string)
    requires FormRecordAsWritten(form, lastGeneratedDomain).Some?
    ensures var r := FormRecordAsWritten(form, lastGeneratedDomain).value;
      && EndsWith(r.name, ".") && r.value != [] && ParseType(r.rtype).Some? && r.rtype == form.rtype
      && (form.rtype == "TXT" || form.rtype == "CAA" ==> !r.proxied)
      && (form.rtype != "TXT" && form.rtype != "CAA" ==> r.proxied == form.proxied)
      && (form.ttl == "AUTO" ==> r.ttl == Or(Norm(form.defaultTtl), "3600"))
      && (form.ttl != "AUTO" ==> r.ttl == form.ttl)
  {
    assert FormValueAsWritten(form.rtype, form) != [];
  }

  /** As written, a TXT value reads back as one string: the normalised content, else the main value. */
  lemma AsWrittenTxtRoundTrip(form: Form)
    requires FilledAsWritten(TXT, form)
    ensures ReadQuotedList(TypedValueAsWritten(TXT, form)) == Some([Or(Norm(form.txtContent), Norm(form.mainValue))])
  {
    var txt := Or(Norm(form.txtContent), Norm(form.mainValue));
    AsWrittenTxtOf(form, txt);
    QuotedListRoundTrip([txt]);
  }

  /** As written, a CAA value reads back as the flag, the tag and the main value, even an empty one. */
  lemma AsWrittenCaaRoundTrip(form: Form)
    requires ' ' !in Norm(Or(form.caaFlag, "0")) && ' ' !in Norm(Or(form.caaTag, "issue"))
    ensures ReadCaa(TypedValueAsWritten(CAA, form))
            == Some((Norm(Or(form.caaFlag, "0")), Norm(Or(form.caaTag, "issue")), Norm(form.mainValue)))
  {
    var flag, tag, main := Norm(Or(form.caaFlag, "0")), Norm(Or(form.caaTag, "issue")), Norm(form.mainValue);
    assert TypedValueAsWritten(CAA, form) == flag + " " + tag + " " + QuotedTxt(main);
    ReadCaaOf(flag, tag, main);
  }

  /** As written, an MX value is the priority and the absolute mail server, split by one space; the server may be empty. */
  lemma AsWrittenMxFields(form: Form)
    requires ' ' !in Norm(Or(form.mxPriority, "10")) && ' ' !in Norm(form.mainValue)
    ensures Split(TypedValueAsWritten(MX, form), ' ') == [Norm(Or(form.mxPriority, "10")), ToFqdn(form.mainValue)]
  {
    var main := Norm(form.mainValue);
    NormIdempotent(form.mainValue);
    assert ' ' !in ToFqdn(main);
    SplitJoinTwo(Norm(Or(form.mxPriority, "10")), ToFqdn(main), ' ');
  }

  /**
    The written builder and the corrected one agree on every form that meets
    the corrected demands and whose TXT content is a single line.
   */
  lemma AsWrittenAgrees(rt: RType, form: Form)
    requires Filled(rt, form) && '\n' !in form.txtContent
    ensures TypedValueAsWritten(rt, form) == TypedValue(rt, form)
  {
    if rt == TXT {
      var content := form.txtContent;
      assert Split(content, '\n') == [content] by {
        SplitPrefix(content, [], '\n');
        assert content + [] == content;
      }
      assert [content][..0] == [];
      assert TxtLines(content) == if Norm(content) == [] then [] else [Norm(content)] by {
        assert NonEmptyNormal([content]) == NonEmptyNormal([]) + (if Norm(content) == [] then [] else [Norm(content)]);
      }
      var txt := Or(Norm(content), Norm(form.mainValue));
      assert TxtParts(content, form.mainValue) == [txt];
      AsWrittenTxtOf(form, txt);
    }
  }

  /** On such forms the list gets the same record from both builders. */
  lemma AsWrittenRecordAgrees(form: Form, lastGeneratedDomain: string)
    requires ParseType(form.rtype).Some? && Filled(ParseType(form.rtype).value, form)
    requires '\n' !in form.txtContent
    ensures FormRecordAsWritten(form, lastGeneratedDomain) == FormRecord(form, lastGeneratedDomain)
  {
    var rt := ParseType(form.rtype).value;
    TypeNameRoundTrip(rt, form.rtype);
    AsWrittenAgrees(rt, form);
    assert FormValueAsWritten(form.rtype, form) == FormValue(form.rtype, form);
  }

  /** A form with everything empty except its type. */
  function BlankForm(t: string): Form {
    Form("", t, "", "AUTO", "", "", false, "", "", "", "", "", "", "")
  }

  /** As written, an MX record with no mail server gets the value `10 ` and is added; it needs its mail server. */
  lemma MxWithoutTargetFinding()
    ensures TypedValueAsWritten(MX, BlankForm("MX")) == "10 "
    ensures !Filled(MX, BlankForm("MX")) && TypedValue(MX, BlankForm("MX")) == []
  {
    assert Norm("") == [];
    assert Norm("10") == "10" by {
      NormalOfNoSpace("10");
      NormFixesNormal("10");
    }
    assert ToFqdn("") == [];
  }

  /** A TXT form whose content is the two lines `a` and `b`. */
  function TwoLineTxt(): Form {
    BlankForm("TXT").(txtContent := "a\nb")
  }

  /** As written, two lines of TXT content become one string with a space where the line feed was. */
  lemma TxtLinesCollapseFinding()
    ensures ReadQuotedList(TypedValueAsWritten(TXT, TwoLineTxt())) == Some(["a b"])
  {
    var f := TwoLineTxt();
    CollapsedLines();
    AsWrittenTxtOf(f, "a b");
    QuotedListRoundTrip(["a b"]);
  }

  /** Split before normalising, the same content gives one string per line. */
  lemma TxtLinesKept()
    ensures ReadQuotedList(TypedValue(TXT, TwoLineTxt())) == Some(["a", "b"])
  {
    TwoLineParts();
    TxtValueRoundTrip(TwoLineTxt());
  }

  lemma TwoLineParts()
    ensures TxtParts(TwoLineTxt().txtContent, TwoLineTxt().mainValue) == ["a", "b"]
  {
    assert TwoLineTxt().txtContent == "a\nb";
    LinesOf();
  }

  /** `norm` turns the line feed of `a\nb` into a space. */
  lemma CollapsedLines()
    ensures Norm("a\nb") == "a b"
  {
    assert Collapse("b", true) == " b" by {
      assert Collapse("b"[1..], false) == [];
    }
    assert Collapse("\nb", false) == Collapse("b", true) by {
      assert "\nb"[1..] == "b";
    }
    assert Collapse("a\nb", false) == "a" + Collapse("\nb", false) by {
      assert "a\nb"[1..] == "\nb";
    }
  }

  /** The lines of `a\nb` are `a` and `b`. */
  lemma LinesOf()
    ensures TxtLines("a\nb") == ["a", "b"]
  {
    assert Split("a\nb", '\n') == ["a", "b"] by {
      SplitJoinTwo("a", "b", '\n');
    }
    NonEmptyNormalOfTwo("a", "b");
  }

  lemma NonEmptyNormalOfTwo(a: string, b: string)
    requires a != [] && b != [] && NoSpace(a) && NoSpace(b)
    ensures NonEmptyNormal([a, b]) == [a, b]
  {
    NormalOfNoSpace(a);
    NormFixesNormal(a);
    NormalOfNoSpace(b);
    NormFixesNormal(b);
    assert [a, b][..1] == [a];
    assert [a][..0] == [];
    assert NonEmptyNormal([a]) == NonEmptyNormal([]) + [a];
  }

  /** The importer's editable list of records. */
  class RecordList {
    var records: seq<Record>

    constructor()
      ensures records == []
    {
      records := [];
    }

    /** `syncRecordsFromEditor`: a copy of the list takes every editor field in order, then incomplete records are dropped. */
    method SyncFromEditor(edits: seq<Edit>)
      modifies this
      ensures records == KeepComplete(ApplyEdits(old(records), edits))
    {
      var next := records;
      for i := 0 to |edits|
        invariant next == ApplyEdits(records, edits[..i])
      {
        var e := edits[i];
        if 0 <= e.index < |next| {
          next := next[e.index := SetField(next[e.index], e.field, e.text)];
        }
        assert edits[..i + 1][..i] == edits[..i];
      }
      assert edits[..|edits|] == edits;
      var kept := [];
      for j := 0 to |next|
        invariant kept == KeepComplete(next[..j])
      {
        if Complete(next[j]) {
          kept := kept + [next[j]];
        }
        assert next[..j + 1][..j] == next[..j];
      }
      assert next[..|next|] == next;
      records := kept;
    }

    /** The delete button: the editor is synced first, then the record at the button's index is spliced out. A non-numeric index deletes nothing. */
    method DeleteClicked(edits: seq<Edit>, index: Option<int>)
      modifies this
      ensures var synced := KeepComplete(ApplyEdits(old(records), edits));
        records == if index.Some? then RemoveAt(synced, SpliceStart(|synced|, index.value)) else synced
    {
      SyncFromEditor(edits);
      if index.Some? {
        var k := if index.value >= 0 then index.value
                 else if |records| + index.value < 0 then 0 else |records| + index.value;
        if k < |records| {
          records := records[..k] + records[k + 1..];
        }
      }
    }

    /** `addRecordFromForm`: the record the form describes goes to the top of the list; nothing happens when the name, type or value is empty. */
    method AddFromForm(form: Form, lastGeneratedDomain: string) returns (added: bool)
      modifies this
      ensures added <==> FormRecordAsWritten(form, lastGeneratedDomain).Some?
      ensures records == AsList(FormRecordAsWritten(form, lastGeneratedDomain)) + old(records)
    {
      var domain := FormDomain(form, lastGeneratedDomain);
      var t := form.rtype;
      var name := ToAbsoluteName(Norm(Or(form.name, "@")), domain);
      var ttl := FormTtl(form);
      var value, proxied := BuildValue(t, form);
      ghost var r := FormRecordAsWritten(form, lastGeneratedDomain);
      if name == [] || t == [] || value == [] {
        assert r == None;
        return false;
      }
      assert r == Some(Record(name, ttl, t, value, proxied));
      records := [Record(name, ttl, t, value, proxied)] + records;
      added := true;
    }
  }

  /** The branches on the form's type: the value and the proxy flag, as `addRecordFromForm` builds them. */
  method BuildValue(t: string, form: Form) returns (value: string, proxied: bool)
    ensures value == FormValueAsWritten(t, form) && proxied == FormProxied(t, form)
  {
    var mainValue := Norm(form.mainValue);
    proxied := form.proxied;
    value := "";
    if t == "A" || t == "AAAA" {
      TypeNameRoundTrip(A, t);
      TypeNameRoundTrip(AAAA, t);
      value := mainValue;
    } else if t == "CNAME" {
      TypeNameRoundTrip(CNAME, t);
      value := ToFqdn(mainValue);
    } else if t == "MX" {
      TypeNameRoundTrip(MX, t);
      var mxPriority := Norm(Or(form.mxPriority, "10"));
      value := mxPriority + " " + ToFqdn(mainValue);
    } else if t == "SRV" {
      TypeNameRoundTrip(SRV, t);
      var p, w, port := Norm(Or(form.srvPriority, "0")), Norm(Or(form.srvWeight, "0")), Norm(Or(form.srvPort, "443"));
      value := p + " " + w + " " + port + " " + ToFqdn(mainValue);
    } else if t == "TXT" {
      TypeNameRoundTrip(TXT, t);
      var txt := Or(Norm(form.txtContent), mainValue);
      if txt != [] {
        var pieces := Split(txt, '\n');
        value := QuotedList(seq(|pieces|, i requires 0 <= i < |pieces| => Norm(pieces[i])));
      }
      proxied := false;
    } else if t == "CAA" {
      TypeNameRoundTrip(CAA, t);
      var flag, tag := Norm(Or(form.caaFlag, "0")), Norm(Or(form.caaTag, "issue"));
      value := flag + " " + tag + " " + QuotedTxt(mainValue);
      proxied := false;
    }
  }

}
