/**
  Worked examples: what the MX, SRV and CAA values of a listing are, and the
  records and zone lines that a few concrete inputs give.
 */
module Scenarios {
  import opened Wrappers
  import opened Text
  import opened Pattern
  import opened Names
  import opened Quoting
  import opened Records
  import opened Html
  import opened Zone
  import opened Listings

  // ---- Listing values ----

  /** An MX listing gives its priority and its destination made absolute. */
  lemma MxValueOfListing(priority: string, destination: string)
    requires IsDigits(priority) && IsToken(destination) && ':' !in destination
    ensures MxValue(MxListing(priority, destination)) == Some(priority + " " + ToFqdn(destination))
  {
    MatchMxListing(priority, destination);
  }

  /** An SRV listing gives its priority, weight and port, and its target made absolute. */
  lemma SrvValueOfListing(priority: string, weight: string, port: string, target: string)
    requires IsDigits(priority) && IsDigits(weight) && IsDigits(port) && IsToken(target) && ':' !in target
    ensures SrvValue(SrvListing(priority, weight, port, target))
            == Some(priority + " " + weight + " " + port + " " + ToFqdn(target))
  {
    MatchSrvListing(priority, weight, port, target);
  }

  /** A CAA listing gives its flag and tag, and its value normalised and quoted. */
  lemma CaaValueOfListing(flag: string, tag: string, value: string)
    requires IsDigits(flag) && IsAlnumText(tag)
    requires value != [] && !IsSpace(value[0]) && NoLineTerminator(value) && ':' !in value
    ensures CaaValue(CaaListing(flag, tag, value)) == Some(flag + " " + tag + " " + QuotedTxt(Norm(value)))
  {
    MatchCaaListing(flag, tag, value);
  }

  // ---- The listings of the examples ----

  /** The MX listing `Priority: 10 Destination: mail.example.com`. */
  lemma MxExampleText()
    ensures MxListing("10", "mail.example.com") == "Priority: 10 " + "Destination: mail.example.com"
  {
    assert FieldLine("Priority:", "10") + " " == "Priority: 10 ";
    assert FieldLine("Destination:", "mail.example.com") == "Destination: mail.example.com";
  }

  lemma MxExample()
    ensures MatchMx(MxListing("10", "mail.example.com")) == Some(("10", "mail.example.com"))
    ensures MxValue(MxListing("10", "mail.example.com")) == Some("10" + " " + ("mail.example.com" + "."))
  {
    assert IsDigits("10");
    MailHost();
    MatchMxListing("10", "mail.example.com");
    MxValueOfListing("10", "mail.example.com");
  }

  /** On that listing the MX pattern has one leftmost greedy match: the whole priority `10`, never a shorter `1`. */
  lemma MxExampleOnlyMatch(caps: seq<string>)
    requires LeftmostFrom(MxListing("10", "mail.example.com"), MxPattern, 0, caps)
    ensures caps == ["10", "mail.example.com"]
  {
    var text := MxListing("10", "mail.example.com");
    MxExample();
    MatchMxLeftmost(text);
    LeftmostUnique(text, MxPattern, 0, caps, ["10", "mail.example.com"]);
  }

  lemma MailHost()
    ensures IsToken("mail.example.com") && ':' !in "mail.example.com"
    ensures ToFqdn("mail.example.com") == "mail.example.com" + "."
  {
    assert "mail.example.com"[0] == 'm';
    HostName("mail.example.com", 'm');
  }

  /** The SRV listing `Priority: 0 Weight: 5 Port: 5060 Target: sip.example.com`. */
  lemma SrvExampleText()
    ensures SrvListing("0", "5", "5060", "sip.example.com")
            == "Priority: 0 " + ("Weight: 5 " + ("Port: 5060 " + "Target: sip.example.com"))
  {
    SrvExampleFields();
  }

  lemma SrvExampleFields()
    ensures FieldLine("Priority:", "0") + " " == "Priority: 0 " && FieldLine("Weight:", "5") + " " == "Weight: 5 "
    ensures FieldLine("Port:", "5060") + " " == "Port: 5060 "
    ensures FieldLine("Target:", "sip.example.com") == "Target: sip.example.com"
  {
  }

  lemma SrvExample()
    ensures MatchSrv(SrvListing("0", "5", "5060", "sip.example.com")) == Some(("0", "5", "5060", "sip.example.com"))
    ensures SrvValue(SrvListing("0", "5", "5060", "sip.example.com"))
            == Some("0" + " " + "5" + " " + "5060" + " " + ("sip.example.com" + "."))
  {
    assert IsDigits("0") && IsDigits("5") && IsDigits("5060");
    SipHost();
    MatchSrvListing("0", "5", "5060", "sip.example.com");
    SrvValueOfListing("0", "5", "5060", "sip.example.com");
  }

  lemma SipHost()
    ensures IsToken("sip.example.com") && ':' !in "sip.example.com"
    ensures ToFqdn("sip.example.com") == "sip.example.com" + "."
  {
    assert "sip.example.com"[0] == 's';
    HostName("sip.example.com", 's');
  }

  /** The CAA listing `Flag: 0 Tag: issue Value: letsencrypt.org`. */
  lemma CaaExampleText()
    ensures CaaListing("0", "issue", "letsencrypt.org") == "Flag: 0 " + ("Tag: issue " + "Value: letsencrypt.org")
  {
    assert FieldLine("Flag:", "0") + " " == "Flag: 0 ";
    assert FieldLine("Tag:", "issue") + " " == "Tag: issue ";
    assert FieldLine("Value:", "letsencrypt.org") == "Value: letsencrypt.org";
  }

  lemma CaaExample()
    ensures MatchCaa(CaaListing("0", "issue", "letsencrypt.org")) == Some(("0", "issue", "letsencrypt.org"))
    ensures CaaValue(CaaListing("0", "issue", "letsencrypt.org")) == Some("0" + " " + "issue" + " " + ("\"" + "letsencrypt.org" + "\""))
  {
    CaaExampleFields();
    MatchCaaListing("0", "issue", "letsencrypt.org");
    CaaValueOfListing("0", "issue", "letsencrypt.org");
    PlainQuoted("letsencrypt.org");
  }

  lemma CaaExampleFields()
    ensures IsDigits("0") && IsAlnumText("issue")
    ensures var v := "letsencrypt.org"; NoSpace(v) && NoLineTerminator(v) && ':' !in v && '"' !in v && '\\' !in v
  {
  }

  // ---- The proxy heuristic in `example.com` ----

  lemma ExampleRoot()
    ensures ToLower(DropFinalDot("example.com")) == "example.com"
    ensures ToLower(DropFinalDot("example.com" + ".")) == "example.com"
  {
    assert DropFinalDot("example.com" + ".") == "example.com";
  }

  /** `mail` is on the deny-list: not proxied. */
  lemma MailNotProxied()
    ensures !InferCfTagAsWritten("mail" + "." + "example.com" + ".", "example.com")
  {
    ExampleRoot();
    DeniedLabelNotProxied("mail", [], "example.com");
    assert "mail" + [] == "mail";
  }

  /** The apex is proxied. */
  lemma ApexProxied()
    ensures InferCfTagAsWritten("example.com" + ".", "example.com")
  {
    ExampleRoot();
    AsWrittenCases("example.com" + ".", "example.com");
  }

  /** `www` is proxied. */
  lemma WwwProxied()
    ensures InferCfTagAsWritten("www" + "." + "example.com" + ".", "example.com")
  {
    ExampleRoot();
    SubdomainClean("www", "example.com");
    AsWrittenCases("www" + "." + "example.com" + ".", "example.com");
  }

  /** Any other one-label host, such as `app`, is proxied. */
  lemma AppProxied()
    ensures InferCfTagAsWritten("app" + "." + "example.com" + ".", "example.com")
  {
    ExampleRoot();
    assert ToLower("app") == "app" && "app" != "www" && "app" !in DenyList && "app" !in PrototypeMembers;
    ClassifySubdomain("app", "example.com");
    SplitNoSeparator("app", '.');
    AsWrittenCases("app" + "." + "example.com" + ".", "example.com");
  }

  // ---- An HTML table row and its zone line ----

  /** The record a `www` A row of the zone editor's table gives in `example.com`: proxied, with its own TTL. */
  lemma WwwRowRecord()
    ensures RowRecord(Row("www", "A", Some("300"), "203.0.113.9", []), "example.com", "3600")
            == Some(Record("www" + "." + "example.com" + ".", "300", "A", "203.0.113.9", true))
  {
    WwwName();
    WwwTtl();
    WwwType();
    WwwAddress();
    WwwProxied();
  }

  lemma WwwName()
    ensures ToAbsoluteName(Norm("www"), "example.com") == "www" + "." + "example.com" + "."
  {
    Plain("www");
    AbsoluteUnder("www", "example.com");
  }

  /** A one-label name without blanks is placed under the domain. */
  lemma AbsoluteUnder(word: string, domain: string)
    requires word != [] && NoSpace(word) && '.' !in word && word != "@"
    ensures ToAbsoluteName(word, domain) == word + "." + domain + "."
  {
    Plain(word);
    assert word[|word| - 1] != '.';
    assert DropFinalDot(word) == word;
  }

  lemma WwwTtl()
    ensures RawTtl(Some("300"), "3600") == "300" && IsDigits("300")
  {
    assert IsDigits("300");
    TtlOfDigits("300", "3600");
  }

  /** An all-digit TTL cell is read as it stands. */
  lemma TtlOfDigits(ttl: string, defaultTtl: string)
    requires IsDigits(ttl)
    ensures RawTtl(Some(ttl), defaultTtl) == ttl
  {
    assert NoSpace(ttl) by {
      forall i | 0 <= i < |ttl| ensures !IsSpace(ttl[i]) {
        assert IsDigit(ttl[i]);
      }
    }
    Plain(ttl);
  }

  lemma WwwType()
    ensures ToUpper(Norm("A")) == "A"
  {
    Plain("A");
  }

  lemma WwwAddress()
    ensures RowValue("A", Norm("203.0.113.9"), [], "203.0.113.9") == "203.0.113.9"
  {
    AddressPlain();
    WholeToken("203.0.113.9");
  }

  lemma AddressPlain()
    ensures "203.0.113.9" != [] && ' ' !in "203.0.113.9" && Norm("203.0.113.9") == "203.0.113.9"
  {
    AddressNormal();
    NormFixesNormal("203.0.113.9");
  }

  lemma AddressNormal()
    ensures NoSpace("203.0.113.9") && Normal("203.0.113.9")
  {
    NormalOfNoSpace("203.0.113.9");
  }

  /** A text without a blank is its own first token. */
  lemma WholeToken(w: string)
    requires ' ' !in w
    ensures FirstToken(w) == w
  {
  }

  /** A table of that one row, with `example.com` as the domain override. */
  lemma WwwTable()
    ensures ExtractHtml([Row("www", "A", Some("300"), "203.0.113.9", [])], "example.com", "3600")
            == Parsed("example.com", [Record("www" + "." + "example.com" + ".", "300", "A", "203.0.113.9", true)])
  {
    ValidExample();
    OneRowTable(Row("www", "A", Some("300"), "203.0.113.9", []), "example.com", "3600");
    WwwRowRecord();
  }

  /** A one-row table under a valid override is in that domain and holds what its row gives. */
  lemma OneRowTable(row: Row, domain: string, defaultTtl: string)
    requires ValidDomain(domain)
    ensures ExtractHtml([row], domain, defaultTtl) == Parsed(domain, AsList(RowRecord(row, domain, defaultTtl)))
  {
    SanitizeFixesValid(domain, GetBaseDomain(Norm(row.name)));
    var os := RowOutcomes([row], domain, defaultTtl);
    assert os == [RowRecord(row, domain, defaultTtl)];
    assert os[..0] == [];
  }

  /** That record's line in the zone file: tab-separated, with the proxy tag after the address. */
  lemma WwwZoneLine()
    ensures RecordLine(Record("www" + "." + "example.com" + ".", "300", "A", "203.0.113.9", true), "example.com", "3600")
            == Some((A, "www" + "." + "example.com" + "." + "\t" + "300" + "\tIN\t" + "A" + "\t"
                        + ("203.0.113.9" + (" ; cf_tags=cf-proxied:" + "true"))))
  {
    WwwAbsolute();
    WwwTtl();
    AddressPlain();
    ALine("www" + "." + "example.com" + ".", "300", "203.0.113.9", true, "example.com", "3600");
  }

  lemma WwwAbsolute()
    ensures ToAbsoluteName("www" + "." + "example.com" + ".", "example.com") == "www" + "." + "example.com" + "."
  {
    var host := "www" + "." + "example.com";
    assert host[3] == '.' && host[|host| - 1] != '.';
    AbsoluteStays(host, "example.com");
  }

  /** A dotted host written with its final dot is already absolute. */
  lemma AbsoluteStays(host: string, domain: string)
    requires NoSpace(host) && '.' in host && host[|host| - 1] != '.'
    ensures ToAbsoluteName(host + ".", domain) == host + "."
  {
    var name := host + ".";
    assert NoSpace(name) by {
      forall i | 0 <= i < |name| ensures !IsSpace(name[i]) {
        if i < |host| {
          assert name[i] == host[i];
        }
      }
    }
    Plain(name);
    assert name[..|name| - 1] == host;
    assert DropFinalDot(name) == host;
  }

  /** The zone line of an A record whose name is already absolute and whose TTL and address need no cleaning. */
  lemma ALine(name: string, ttl: string, address: string, proxied: bool, domain: string, defaultTtl: string)
    requires IsDigits(ttl) && address != [] && Norm(address) == address
    requires ToAbsoluteName(name, domain) == name
    ensures RecordLine(Record(name, ttl, "A", address, proxied), domain, defaultTtl)
            == Some((A, name + "\t" + ttl + "\tIN\t" + "A" + "\t"
                        + (address + (" ; cf_tags=cf-proxied:" + (if proxied then "true" else "false")))))
  {
    assert ToUpper("A") == "A";
  }

  // ---- TXT fragments ----

  /** Two TXT fragments stay two quoted strings, whatever the cell's own text. */
  lemma SpfFragments(cell: string)
    ensures TxtValue(["v=spf1", "include:_spf.example.com"], cell)
            == "\"" + "v=spf1" + "\"" + " " + ("\"" + "include:_spf.example.com" + "\"")
  {
    SpfParts();
    IncludeParts();
    TwoFragments("v=spf1", "include:_spf.example.com", cell);
  }

  lemma SpfParts()
    ensures FragmentPart("v=spf1") == Some("v=spf1") && QuotedTxt("v=spf1") == "\"" + "v=spf1" + "\""
  {
    PlainFragment("v=spf1");
  }

  lemma IncludeParts()
    ensures FragmentPart("include:_spf.example.com") == Some("include:_spf.example.com")
    ensures QuotedTxt("include:_spf.example.com") == "\"" + "include:_spf.example.com" + "\""
  {
    PlainFragment("include:_spf.example.com");
  }

  /** Two kept fragments give two quoted strings joined by a blank. */
  lemma TwoFragments(a: string, b: string, cell: string)
    requires FragmentPart(a) == Some(a) && FragmentPart(b) == Some(b)
    ensures TxtValue([a, b], cell) == QuotedTxt(a) + " " + QuotedTxt(b)
  {
    TwoParts(a, b, cell);
    QuotedPair(a, b);
  }

  lemma TwoParts(a: string, b: string, cell: string)
    requires FragmentPart(a) == Some(a) && FragmentPart(b) == Some(b)
    ensures TxtCellParts([a, b], cell) == [a, b]
  {
    FragmentPair(a, b);
    SomesPair(a, b);
  }

  lemma FragmentPair(a: string, b: string)
    requires FragmentPart(a) == Some(a) && FragmentPart(b) == Some(b)
    ensures FragmentParts([a, b]) == [Some(a), Some(b)]
  {
    var fs := [a, b];
    var os := FragmentParts(fs);
    assert fs[0] == a && fs[1] == b;
    PairOf(os, Some(a), Some(b));
  }

  lemma PairOf<T>(os: seq<T>, x: T, y: T)
    requires |os| == 2 && os[0] == x && os[1] == y
    ensures os == [x, y]
  {
  }

  lemma SomesPair(a: string, b: string)
    ensures Somes([Some(a), Some(b)]) == [a, b]
  {
    assert [Some(a), Some(b)][..1] == [Some(a)];
    assert [Some(a)][..0] == [];
  }

  lemma QuotedPair(a: string, b: string)
    ensures QuotedList([a, b]) == QuotedTxt(a) + " " + QuotedTxt(b)
  {
    var parts := [a, b];
    var qs := seq(|parts|, i requires 0 <= i < |parts| => QuotedTxt(parts[i]));
    assert qs[0] == QuotedTxt(a) && qs[1] == QuotedTxt(b);
    assert qs[1..] == [QuotedTxt(b)];
    assert Join(qs, ' ') == qs[0] + [' '] + Join(qs[1..], ' ');
  }

  /** A fragment without blanks, quotes or backslashes is kept as it is, and quoting only adds its quotes. */
  lemma PlainFragment(f: string)
    requires f != [] && NoSpace(f) && '"' !in f && '\\' !in f && f != "path=/"
    ensures FragmentPart(f) == Some(f) && QuotedTxt(f) == "\"" + f + "\""
  {
    Plain(f);
    StripFixes(f, '"');
    PlainQuoted(f);
  }

  /** A text without blanks is already normalised. */
  lemma Plain(w: string)
    requires NoSpace(w)
    ensures Norm(w) == w
  {
    NormalOfNoSpace(w);
    NormFixesNormal(w);
  }

  /** A host name without an address's characters, made absolute: one dot added. */
  lemma HostName(host: string, c: char)
    requires host != [] && NoSpace(host) && ':' !in host && host[|host| - 1] != '.'
    requires c in host && !IsHexOrColon(c) && c != '.'
    ensures IsToken(host) && ToFqdn(host) == host + "."
  {
    AddressChars(host, c);
    NormalOfNoSpace(host);
    NormFixesNormal(host);
  }

  /** A value without blanks, quotes or backslashes, normalised and quoted: just its quotes added. */
  lemma PlainQuoted(v: string)
    requires NoSpace(v) && '"' !in v && '\\' !in v
    ensures QuotedTxt(Norm(v)) == "\"" + v + "\""
  {
    NormalOfNoSpace(v);
    NormFixesNormal(v);
    ReplaceAllAbsent(v, '\\', "\\\\");
    ReplaceAllAbsent(v, '"', "\\\"");
  }
}
