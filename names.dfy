/**
  Domain and host-name canonicalisers: the base-domain guess, the domain
  sanitiser, FQDN and absolute-name resolution, and the Cloudflare proxy
  heuristic.
 */
module Names {
  import opened Text

  /** `s.replace(/\.$/, "")`: one final dot removed, if there is one. */
  function DropFinalDot(s: string): (r: string)
    ensures r <= s && |s| - 1 <= |r|
    ensures r == s <==> (s == [] || s[|s| - 1] != '.')
  {
    if s != [] && s[|s| - 1] == '.' then s[..|s| - 1] else s
  }

  /**
    `getBaseDomain(name)`: the last two dot-separated labels of the name
    without its final dot, or the whole of it when it has no dot.
   */
  function GetBaseDomain(name: string): string {
    var clean := DropFinalDot(name);
    var parts := Split(clean, '.');
    if |parts| < 2 then clean else parts[|parts| - 2] + "." + parts[|parts| - 1]
  }

  /**
    The base domain is a tail of the name that starts at a label boundary and
    holds exactly two labels; a name without a dot is its own base domain.
   */
  lemma BaseDomainIsLastTwoLabels(name: string)
    ensures var clean, r := DropFinalDot(name), GetBaseDomain(name);
      && ('.' !in clean ==> r == clean)
      && ('.' in clean ==>
            && EndsWith(clean, r)
            && |Split(r, '.')| == 2
            && (|r| == |clean| || clean[|clean| - |r| - 1] == '.'))
  {
    var clean := DropFinalDot(name);
    var parts := Split(clean, '.');
    SplitMany(clean, '.');
    if '.' in clean {
      var n := |parts|;
      var last := parts[n - 2..];
      assert Join(last, '.') == parts[n - 2] + "." + parts[n - 1] by {
        assert last[1..] == [parts[n - 1]];
      }
      SplitJoin(last, '.');
      JoinSplit(clean, '.');
      if n == 2 {
        assert parts == last;
      } else {
        var first := parts[..n - 2];
        assert parts == first + last;
        JoinAppend(first, last, '.');
        assert clean == (Join(first, '.') + ['.']) + Join(last, '.');
      }
    }
  }

  /** The characters `/^[a-z0-9.-]+$/` accepts. */
  predicate IsDomainChar(c: char) {
    'a' <= c <= 'z' || IsDigit(c) || c == '.' || c == '-'
  }

  predicate NoDoubleDot(s: string) {
    forall i :: 0 <= i < |s| - 1 ==> !(s[i] == '.' && s[i + 1] == '.')
  }

  /** What `sanitizeDomain` lets through: lower case, at least two labels, no empty label. */
  predicate ValidDomain(d: string) {
    && |d| > 0
    && (forall i :: 0 <= i < |d| ==> IsDomainChar(d[i]))
    && '.' in d
    && d[0] != '.' && d[|d| - 1] != '.'
    && NoDoubleDot(d)
  }

  /** `s.replace(/\.\.+/g, ".")`: every run of dots becomes one dot. */
  function CollapseDots(s: string): (r: string)
    ensures NoDoubleDot(r)
    ensures s == [] <==> r == []
    ensures s != [] ==> r[0] == s[0] && r[|r| - 1] == s[|s| - 1]
    ensures forall i :: 0 <= i < |r| ==> r[i] in s
  {
    if s == [] then []
    else if s[0] == '.' && |s| > 1 && s[1] == '.' then CollapseDots(s[1..])
    else [s[0]] + CollapseDots(s[1..])
  }

  lemma {:induction false} CollapseDotsFixes(s: string)
    requires NoDoubleDot(s)
    ensures CollapseDots(s) == s
  {
    if s != [] {
      CollapseDotsFixes(s[1..]);
      assert [s[0]] + s[1..] == s;
    }
  }

  /** The text `sanitizeDomain` checks: normalised, lower-cased, without spaces, outer dots or repeated dots. */
  function SquashDomain(value: string): (r: string)
    ensures r == [] || (r[0] != '.' && r[|r| - 1] != '.')
    ensures NoDoubleDot(r)
  {
    CollapseDots(Strip(NonSpace(ToLower(Norm(value))), '.'))
  }

  /**
    `sanitizeDomain(value, fallback)`: the squashed value when it is made of
    `[a-z0-9.-]` and holds a dot, the fallback otherwise.
   */
  function SanitizeDomain(value: string, fallback: string): (r: string)
    ensures r == fallback || ValidDomain(r)
  {
    var clean := SquashDomain(value);
    if clean == [] then fallback
    else if !(forall i :: 0 <= i < |clean| ==> IsDomainChar(clean[i])) || '.' !in clean then fallback
    else clean
  }

  lemma LowerFixesDomainChars(d: string)
    requires forall i :: 0 <= i < |d| ==> IsDomainChar(d[i])
    ensures ToLower(d) == d
  {
  }

  /** A valid domain comes back unchanged, whatever the fallback. */
  lemma DomainCharsNoSpace(d: string)
    requires forall i :: 0 <= i < |d| ==> IsDomainChar(d[i])
    ensures NoSpace(d)
  {
    forall i | 0 <= i < |d| ensures !IsSpace(d[i]) {
      assert IsDomainChar(d[i]);
    }
  }

  lemma SquashFixesValid(d: string)
    requires ValidDomain(d)
    ensures SquashDomain(d) == d
  {
    DomainCharsNoSpace(d);
    NormalOfNoSpace(d);
    NormFixesNormal(d);
    LowerFixesDomainChars(d);
    NonSpaceOfNoSpace(d);
    StripFixes(d, '.');
    CollapseDotsFixes(d);
  }

  lemma SanitizeFixesValid(d: string, fallback: string)
    requires ValidDomain(d)
    ensures SanitizeDomain(d, fallback) == d
  {
    SquashFixesValid(d);
  }

  /**
    Sanitising twice with the same fallback gives what sanitising once gave,
    as long as the fallback is itself left alone by the sanitiser (an empty
    or a valid fallback is).
   */
  lemma SanitizeIdempotent(value: string, fallback: string)
    requires SanitizeDomain(fallback, fallback) == fallback
    ensures SanitizeDomain(SanitizeDomain(value, fallback), fallback) == SanitizeDomain(value, fallback)
  {
    var r := SanitizeDomain(value, fallback);
    if r != fallback {
      SanitizeFixesValid(r, fallback);
    }
  }

  lemma SanitizeFallbackStable(fallback: string)
    requires fallback == [] || ValidDomain(fallback)
    ensures SanitizeDomain(fallback, fallback) == fallback
  {
    if fallback != [] {
      SanitizeFixesValid(fallback, fallback);
    }
  }

  /** A fallback the sanitiser would itself rewrite breaks idempotence. */
  lemma SanitizeNotIdempotentForRawFallback()
    ensures SanitizeDomain("", "Example.com") == "Example.com"
    ensures SanitizeDomain("Example.com", "Example.com") == "example.com"
  {
    SanitizeEmpty("Example.com");
    SquashExample();
    ValidExample();
  }

  /** An empty or all-blank value gives the fallback. */
  lemma SanitizeEmpty(fallback: string)
    ensures SanitizeDomain("", fallback) == fallback
  {
    assert Norm("") == [];
    assert SquashDomain("") == [];
  }

  lemma SquashExample()
    ensures SquashDomain("Example.com") == "example.com"
  {
    var raw, low := "Example.com", "example.com";
    assert NoSpace(raw);
    SquashIgnoresCase(raw);
    LowerExample();
    ValidExample();
    SquashFixesValid(low);
  }

  lemma LowerExample()
    ensures ToLower("Example.com") == "example.com"
  {
  }

  lemma ValidExample()
    ensures ValidDomain("example.com")
  {
    assert "example.com"[7] == '.';
  }

  /** Squashing a blank-free text does not depend on its letter case. */
  lemma SquashIgnoresCase(v: string)
    requires NoSpace(v)
    ensures SquashDomain(v) == SquashDomain(ToLower(v))
  {
    NormalOfNoSpace(v);
    NormFixesNormal(v);
    var low := ToLower(v);
    assert NoSpace(low) by {
      forall i | 0 <= i < |low| ensures !IsSpace(low[i]) {
        assert !IsSpace(v[i]);
      }
    }
    NormalOfNoSpace(low);
    NormFixesNormal(low);
    LowerIdempotent(v);
  }

  /** `/^\d{1,3}(\.\d{1,3}){3}$/`: four dot-separated groups of one to three digits. */
  predicate IsIPv4(text: string) {
    var parts := Split(text, '.');
    |parts| == 4 && forall j :: 0 <= j < |parts| ==> |parts[j]| <= 3 && IsDigits(parts[j])
  }

  predicate IsHexOrColon(c: char) {
    IsDigit(c) || 'a' <= c <= 'f' || 'A' <= c <= 'F' || c == ':'
  }

  /** `/^[A-Fa-f0-9:]+$/` together with the presence of a colon: an IPv6 literal. */
  predicate IsHexAddress(text: string) {
    |text| > 0 && (forall i :: 0 <= i < |text| ==> IsHexOrColon(text[i])) && ':' in text
  }

  /** Each character of an IPv4 literal is a digit or a dot, and each of an IPv6 literal a hex digit or a colon. */
  lemma AddressChars(text: string, c: char)
    requires c in text
    ensures IsIPv4(text) ==> IsDigit(c) || c == '.'
    ensures IsHexAddress(text) ==> IsHexOrColon(c)
  {
    if IsIPv4(text) && c != '.' && !IsDigit(c) {
      JoinSplit(text, '.');
      JoinAvoids(Split(text, '.'), '.', c);
      assert false;
    }
  }

  /**
    `toFqdn(value)`: the normalised value with a final dot added, unless it is
    empty, already ends with a dot, or is an IPv4 or IPv6 literal.
   */
  function ToFqdn(value: string): (r: string)
    ensures r == [] <==> Norm(value) == []
    ensures r == Norm(value) || r == Norm(value) + "."
    ensures r != [] ==> EndsWith(r, ".") || IsIPv4(r) || IsHexAddress(r)
    ensures IsIPv4(Norm(value)) || IsHexAddress(Norm(value)) ==> r == Norm(value)
    ensures EndsWith(Norm(value), ".") ==> r == Norm(value)
    ensures Normal(r)
  {
    var text := Norm(value);
    if text == [] then text
    else if EndsWith(text, ".") then text
    else if IsIPv4(text) then text
    else if IsHexAddress(text) then text
    else
      NormalAppend(text, ".");
      text + "."
  }

  lemma ToFqdnIdempotent(value: string)
    ensures ToFqdn(ToFqdn(value)) == ToFqdn(value)
  {
    var r := ToFqdn(value);
    NormFixesNormal(r);
  }

  /**
    `toAbsoluteName(name, domain)`: the apex for an empty name or `@`, the
    name itself when it already has a dot, the name under the domain
    otherwise; one final dot of the name is ignored and one is added.
   */
  function ToAbsoluteName(name: string, domain: string): (r: string)
    ensures EndsWith(r, ".")
    ensures var text := DropFinalDot(Norm(name));
      && (text == [] || text == "@" ==> r == domain + ".")
      && ('.' in text ==> r == text + ".")
      && (text != [] && text != "@" && '.' !in text ==> r == text + "." + domain + ".")
  {
    var text := DropFinalDot(Norm(name));
    if text == [] || text == "@" then domain + "."
    else if '.' in text then text + "."
    else text + "." + domain + "."
  }

  /** Resolved names are already normalised when the domain has no blanks. */
  lemma AbsoluteNameNormal(name: string, domain: string)
    requires NoSpace(domain)
    ensures Normal(ToAbsoluteName(name, domain))
  {
    var text := DropFinalDot(Norm(name));
    if text == [] || text == "@" {
      NormalOfNoSpace(domain + ".");
    } else {
      ResolvedNormal(Norm(name), domain);
    }
  }

  /** The two cases of a host name, given its normalised text `n`. */
  lemma ResolvedNormal(n: string, domain: string)
    requires Normal(n) && NoSpace(domain)
    ensures var text := DropFinalDot(n);
      && ('.' in text ==> Normal(text + "."))
      && ('.' !in text ==> Normal(text + "." + domain + "."))
  {
    var text := DropFinalDot(n);
    if text == n {
      if '.' in text {
        NormalAppend(n, ".");
      } else {
        NormalAppend(n, "." + domain + ".");
        assert text + "." + domain + "." == n + ("." + domain + ".");
      }
    } else {
      assert n == text + ".";
      if '.' !in text {
        NormalAppend(n, domain + ".");
        assert text + "." + domain + "." == n + (domain + ".");
      }
    }
  }

  /**
    A name already resolved against a domain that has a dot (or is empty) and
    no blanks resolves to itself.
   */
  lemma ToAbsoluteNameIdempotent(name: string, domain: string)
    requires NoSpace(domain) && (domain == [] || '.' in domain)
    ensures ToAbsoluteName(ToAbsoluteName(name, domain), domain) == ToAbsoluteName(name, domain)
  {
    var text := DropFinalDot(Norm(name));
    var r := ToAbsoluteName(name, domain);
    AbsoluteNameNormal(name, domain);
    NormFixesNormal(r);
    var t := DropFinalDot(r);
    assert t == r[..|r| - 1];
    if text == [] || text == "@" {
      assert t == domain;
    } else if '.' in text {
      assert t == text;
    } else {
      assert t == text + "." + domain;
      assert t[|text|] == '.';
    }
  }

  /**
    A name given with two final dots keeps one of them after resolution, so
    the result ends in two dots.
   */
  lemma AbsoluteNameKeepsExtraDot()
    ensures ToAbsoluteName("a..", "example.com") == "a.."
  {
    NormalOfNoSpace("a..");
    NormFixesNormal("a..");
    assert DropFinalDot("a..") == "a.";
    assert "a."[1] == '.';
  }

  /** Host labels that are never proxied. */
  const DenyList: set<string> :=
    {"mail", "ftp", "cpanel", "webmail", "webdisk", "whm", "cpcontacts", "cpcalendars", "autodiscover", "autoconfig"}

  /** The stages of the proxy heuristic: an early answer, or the first host label to look up. */
  datatype Decision = Decided(proxied: bool) | Lookup(firstLabel: string)

  /**
    The part of `inferCfTag` before the deny-list lookup. Names outside the
    domain, empty hosts and hosts starting with `_` are not proxied; the apex
    and `www` are.
   */
  function Classify(name: string, domain: string): (d: Decision)
    ensures d.Lookup? ==> '.' !in d.firstLabel && (d.firstLabel == [] || d.firstLabel[0] != '_')
  {
    var clean := ToLower(DropFinalDot(name));
    var root := ToLower(DropFinalDot(domain));
    if root == [] then Decided(false)
    else if clean == root || clean == "www." + root then Decided(true)
    else if !EndsWith(clean, "." + root) then Decided(false)
    else
      var host := clean[..|clean| - |root| - 1];
      if host == [] || host[0] == '_' then Decided(false)
      else
        Lookup(Split(host, '.')[0])
  }

  /**
    `inferCfTag(name, domain) === "true"`, with the deny-list looked up as a
    set of exactly ten labels.
   */
  function InferCfTag(name: string, domain: string): bool {
    match Classify(name, domain)
    case Decided(p) => p
    case Lookup(lab) => lab !in DenyList
  }

  /**
    The cases of the heuristic, ignoring case and one final dot: a proxied
    name lies in a non-empty domain; the apex and `www` are proxied; a host
    under the domain that starts with `_` is not.
   */
  lemma InferCfTagCases(name: string, domain: string)
    ensures var clean, root, r := ToLower(DropFinalDot(name)), ToLower(DropFinalDot(domain)), InferCfTag(name, domain);
      && (r ==> root != [] && (clean == root || EndsWith(clean, "." + root)))
      && (root != [] && (clean == root || clean == "www." + root) ==> r)
      && (clean != root && clean != [] && clean[0] == '_' ==> !r)
  {
    var clean, root := ToLower(DropFinalDot(name)), ToLower(DropFinalDot(domain));
    if clean == "www." + root {
      assert clean[|clean| - |root| - 1..] == "." + root;
    }
  }

  lemma LowerOfUpper(s: string)
    ensures ToLower(ToUpper(s)) == ToLower(s)
  {
  }

  /** Upper-casing the name changes nothing: the heuristic ignores ASCII case. */
  lemma InferCfTagIgnoresCase(name: string, domain: string)
    ensures InferCfTag(ToUpper(name), domain) == InferCfTag(name, domain)
  {
    var u := ToUpper(name);
    assert DropFinalDot(u) == ToUpper(DropFinalDot(name));
    LowerOfUpper(DropFinalDot(name));
  }

  /** Splitting a text without the separator gives the text back as the first piece. */
  lemma SplitNoSeparator(s: string, d: char)
    requires d !in s
    ensures Split(s, d)[0] == s
  {
    SplitPrefix(s, [], d);
    assert s + [] == s;
  }

  /**
    For a one-label host directly under the domain, the heuristic proxies
    exactly when the label is `www`, or does not start with `_` and is not on
    the deny-list.
   */
  lemma InferCfTagOneLabel(lab: string, domain: string)
    requires ToLower(lab) == lab && lab != [] && '.' !in lab
    requires ToLower(DropFinalDot(domain)) != []
    ensures var root := ToLower(DropFinalDot(domain));
      InferCfTag(lab + "." + root + ".", domain) <==> lab == "www" || (lab[0] != '_' && lab !in DenyList)
  {
    var root := ToLower(DropFinalDot(domain));
    if lab == "www" {
      assert DropFinalDot(lab + "." + root + ".") == "www." + root;
      LowerIdempotent(DropFinalDot(domain));
      LowerConcat("www.", root);
    } else {
      ClassifySubdomain(lab, domain);
      SplitNoSeparator(lab, '.');
    }
  }

  /** A lower-case host other than `www` under the domain reaches the deny-list lookup with its first label, unless it starts with `_`. */
  lemma ClassifySubdomain(host: string, domain: string)
    requires ToLower(host) == host && host != [] && host != "www"
    requires ToLower(DropFinalDot(domain)) != []
    ensures var root := ToLower(DropFinalDot(domain));
      Classify(host + "." + root + ".", domain) == if host[0] == '_' then Decided(false) else Lookup(Split(host, '.')[0])
  {
    var root := ToLower(DropFinalDot(domain));
    var clean := host + "." + root;
    SubdomainClean(host, domain);
    TailSplit(host, root);
    assert clean != "www." + root by {
      TailSplit("www", root);
    }
  }

  lemma SubdomainClean(host: string, domain: string)
    requires ToLower(host) == host
    ensures var root := ToLower(DropFinalDot(domain));
      ToLower(DropFinalDot(host + "." + root + ".")) == host + "." + root
  {
    var root := ToLower(DropFinalDot(domain));
    var clean := host + "." + root;
    assert DropFinalDot(clean + ".") == clean;
    LowerIdempotent(DropFinalDot(domain));
    LowerConcat(host + ".", root);
    LowerConcat(host, ".");
  }

  /** Cutting `"." + root` off `host + "." + root` gives back `host`. */
  lemma TailSplit(host: string, root: string)
    ensures var clean := host + "." + root;
      clean[|clean| - |root| - 1..] == "." + root && clean[..|clean| - |root| - 1] == host
  {
  }

  /** A host whose first label is on the deny-list is never proxied, however deep it is. */
  lemma DeniedLabelNotProxied(lab: string, rest: string, domain: string)
    requires lab in DenyList
    requires rest == [] || rest[0] == '.'
    requires ToLower(rest) == rest
    ensures var root := ToLower(DropFinalDot(domain));
      !InferCfTag(lab + rest + "." + root + ".", domain)
  {
    if ToLower(DropFinalDot(domain)) != [] {
      DenyListFacts(lab);
      var host := lab + rest;
      LowerConcat(lab, rest);
      assert host != "www";
      ClassifySubdomain(host, domain);
      FirstLabelOf(lab, rest);
    }
  }

  lemma DenyListFacts(lab: string)
    requires lab in DenyList
    ensures ToLower(lab) == lab && '.' !in lab && !(lab <= "www")
  {
    assert |lab| >= 3 && lab != "www";
  }

  /** The first label of `label + rest` is `label` when `rest` is empty or starts with a dot. */
  lemma FirstLabelOf(lab: string, rest: string)
    requires '.' !in lab
    requires rest == [] || rest[0] == '.'
    ensures Split(lab + rest, '.')[0] == lab
  {
    SplitPrefix(lab, rest, '.');
    assert Split(rest, '.')[0] == [];
    assert lab + [] == lab;
  }

  /** The members every JavaScript object inherits from `Object.prototype`. */
  const PrototypeMembers: set<string> := {
    "constructor", "__proto__", "hasOwnProperty", "isPrototypeOf", "propertyIsEnumerable",
    "toString", "toLocaleString", "valueOf",
    "__defineGetter__", "__defineSetter__", "__lookupGetter__", "__lookupSetter__"}

  /**
    `inferCfTag` as written: the deny-list is a plain object literal, so the
    lookup `nonProxyHosts[firstLabel]` is also truthy for a label naming an
    inherited member.
   */
  function InferCfTagAsWritten(name: string, domain: string): (r: bool)
    ensures r ==> InferCfTag(name, domain)
  {
    match Classify(name, domain)
    case Decided(p) => p
    case Lookup(lab) => !(lab in DenyList || lab in PrototypeMembers)
  }

  /**
    The written lookup refuses exactly what the corrected one refuses, and also
    a first label naming an inherited member; so it agrees with the corrected
    heuristic on the apex, on `www` and on names outside the domain.
   */
  lemma AsWrittenCases(name: string, domain: string)
    ensures var clean, root, r := ToLower(DropFinalDot(name)), ToLower(DropFinalDot(domain)), InferCfTagAsWritten(name, domain);
      && (r <==>
            && InferCfTag(name, domain)
            && !(Classify(name, domain).Lookup? && Classify(name, domain).firstLabel in PrototypeMembers))
      && (root != [] && (clean == root || clean == "www." + root) ==> r)
  {
  }

  /**
    A one-label host that names an inherited member, is lower case and does
    not start with `_` is refused by the written lookup, although it is not on
    the deny-list; `constructor` is the one such label.
   */
  lemma PrototypeHostFinding(host: string, domain: string)
    requires host in PrototypeMembers && host !in DenyList
    requires ToLower(host) == host && host[0] != '_' && '.' !in host
    requires ToLower(DropFinalDot(domain)) != []
    ensures var name := host + "." + ToLower(DropFinalDot(domain)) + ".";
      !InferCfTagAsWritten(name, domain) && InferCfTag(name, domain)
  {
    assert host != "www";
    ClassifySubdomain(host, domain);
    FirstLabelOf(host, []);
    assert host + [] == host;
  }

  /** `constructor.example.com.` in `example.com`, for one. */
  lemma ConstructorHostFinding(domain: string)
    requires ToLower(DropFinalDot(domain)) != []
    ensures var name := "constructor" + "." + ToLower(DropFinalDot(domain)) + ".";
      !InferCfTagAsWritten(name, domain) && InferCfTag(name, domain)
  {
    ConstructorFacts();
    PrototypeHostFinding("constructor", domain);
  }

  lemma ConstructorFacts()
    ensures "constructor" in PrototypeMembers && "constructor" !in DenyList
    ensures ToLower("constructor") == "constructor" && '.' !in "constructor"
  {
  }
}
