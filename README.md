# cPanel DNS to Cloudflare zone importer: a Dafny model

This project models the core of the browser page `app.js` of the cPanel DNS →
Cloudflare importer. The page reads the DNS records a cPanel "Zone Editor"
shows, either as the rows of its HTML table or as text pasted from it. It
normalises them into records of seven types (A, AAAA, CNAME, MX, SRV, TXT,
CAA). It keeps them in an editable list. Finally it writes them out as a BIND
zone file that Cloudflare can import, with a `cf_tags=cf-proxied:` tag on
A, AAAA and CNAME lines.

The model is split into modules:

- `Text` (text.dfy): the string helpers.
  - `norm` (`Norm`) uses JavaScript's exact whitespace set.
  - Also `trim`, ASCII `toLowerCase`/`toUpperCase`, `split` and `join`.
- `Pattern` (pattern.dfy): a small backtracking matcher.
  - It is built from literals, greedy character-class runs, `\b` and `$`.
  - It reproduces JavaScript's first-match semantics for the four fixed
    regular expressions of the importer.
- `Names` (names.dfy): `getBaseDomain`, `sanitizeDomain`, `toFqdn`,
  `toAbsoluteName` and the proxy heuristic `inferCfTag`.
- `Quoting` (quoting.dfy): `quotedTxt` and a reader that undoes it.
- `Records` (records.dfy): the record, the record types, and the MX, SRV and
  CAA values of a table cell.
- `PlainText` (plaintext.dfy): `parseRecordsFromPlainText`, as functions and as
  the loops of the source.
- `Html` (html.dfy): `extractTxtParts` and `parseRecordsFromHtml`.
  - They work over rows abstracted from the DOM.
  - Each row holds its cell texts and its TXT detail fragments.
- `Zone` (zone.dfy): `buildZone`, as a specification function and as the
  method that fills the per-type buckets.
- `Editor` (session.dfy): the session's record list.
  - A class `RecordList` whose field `records` the methods update in place.
  - Its operations are the edit sync, the delete button and the "Add record"
    form.
  - The form builder is modelled as written (`TypedValueAsWritten`). A
    corrected builder (`TypedValue`, `FormRecord`) states the rule the
    "(required)" labels announce; it is the reference of the third finding.
- `Listings` (listing.dfy): the MX, SRV and CAA patterns against the
  `Label: value` listings the Zone Editor shows, with the values read back.
- `Pasted` (pasted.dfy): whole pasted blocks run through the plain-text
  extractor.
- `Scenarios` (scenarios.dfy): worked examples over concrete rows, names and
  records.

The extractors use the proxy heuristic as written (`InferCfTagAsWritten`),
object-literal lookup included. The corrected heuristic (`InferCfTag`) is the
reference of the first finding.

Behaviour of the code worth knowing:

- `toFqdn` passes a value through unchanged when it is four dot-separated
  groups of one to three digits, or only hex digits and colons with at least
  one colon (app.js:44-45); any other value that does not end in a dot gets
  one.
- `toAbsoluteName` drops only one final dot (app.js:50), so `a..` stays `a..`.
- `replace(/^"+|"+$/g, "")` removes the whole run of quotes at each end of a
  TXT fragment (app.js:65, app.js:131).
- The header is seven lines (app.js:442-448): the domain, the export time,
  `;;`, the two notes, `;;` and a blank line.
- The plain-text extractor never falls back to the default TTL (app.js:162),
  because the start-line pattern always captures digits.

## Model

| member | source | states |
|---|---|---|
| Text.Norm | app.js:17-19 | the result has single inner spaces and nothing to trim, and keeps exactly the non-whitespace characters of the input, in order |
| Text.NormWords | app.js:17-19 | `norm` of any text is its words, the maximal runs of non-whitespace characters, joined by single spaces |
| Text.Words | app.js:18 | every word is non-empty and holds no whitespace |
| Text.CollapseWords | app.js:18 | copying a text with each whitespace run turned into one space before the next kept character gives its words joined by single spaces, with one space in front when a run was skipped first |
| Text.NormFixesNormal | app.js:17-19 | text that is already normal is left unchanged by `norm` |
| Text.NormIdempotent | app.js:17-19 | normalising twice gives the same as normalising once |
| Text.Trim | app.js:88-90 | `trim()` leaves no whitespace at either end |
| Text.TrimSlice | app.js:88-90 | `trim()` gives the slice of the input that starts after its leading whitespace, with only whitespace outside the slice |
| Text.TrimUnique | app.js:88-90 | a slice with only whitespace outside it and none at its ends is exactly what `trim()` gives |
| Text.Strip | app.js:65 | `replace(/^"+\|"+$/g, "")` leaves no quote at either end |
| Text.StripSlice | app.js:65 | the stripped text is a slice of the input with only quotes outside it |
| Text.StripUnique | app.js:65 | a slice with only quotes outside it and no quote at its ends is exactly the stripped text |
| Text.StripFixes | app.js:131 | text without a quote at either end is left unchanged |
| Text.Split | app.js:88 | `split` gives at least one piece and no piece holds the separator |
| Text.JoinSplit | app.js:88 | joining the pieces of `split` with the separator gives back the text |
| Text.SplitJoin | app.js:488 | splitting a join of separator-free pieces gives back the pieces |
| Text.SplitMany | app.js:23-24 | `split` gives two or more pieces exactly when the separator occurs |
| Text.LowerIdempotent | app.js:374-375 | lower-casing twice equals lower-casing once |
| Text.ToLower | app.js:374-375 | the lower-cased text has the input's length, and each character is the ASCII lower case of the input's character there |
| Text.ToUpper | app.js:181 | the upper-cased text has the input's length, and each character is the ASCII upper case of the input's character there |
| Names.BaseDomainIsLastTwoLabels | app.js:21-26 | without a dot, the base domain is the name minus its final dot; otherwise it is a tail of the name starting at a label boundary and holding exactly two labels |
| Names.GetBaseDomain | app.js:21-26 | the definition: the name minus its final dot, cut to its last two labels when it has two or more; its properties are `BaseDomainIsLastTwoLabels` |
| Names.DropFinalDot | app.js:22 | `replace(/\.$/, "")`: a prefix of the input at most one character shorter, equal to it exactly when the input does not end in a dot |
| Names.SquashDomain | app.js:29-33 | the squashed text has no leading or trailing dot and no two dots in a row |
| Names.CollapseDots | app.js:33 | no two dots in a row, same first and last character, only characters of the input |
| Names.SanitizeDomain | app.js:28-38 | the result is the fallback or a valid domain: lower-case letters, digits, dots and hyphens, at least one dot, no dot at either end |
| Names.SanitizeFixesValid | app.js:28-38 | a valid domain sanitises to itself whatever the fallback |
| Names.SanitizeIdempotent | app.js:28-38 | with a fallback that sanitises to itself, sanitising twice equals sanitising once |
| Names.SanitizeFallbackStable | app.js:35-36 | an empty or valid fallback sanitises to itself |
| Names.SanitizeNotIdempotentForRawFallback | app.js:304 | with the raw fallback `Example.com`, sanitising twice differs from sanitising once |
| Names.SanitizeEmpty | app.js:35 | an empty value gives the fallback |
| Names.SquashIgnoresCase | app.js:30 | squashing ignores the case of blank-free input |
| Names.ToFqdn | app.js:40-47 | empty exactly for blank input; the normalised value, possibly with a dot added; a normalised value that already ends in a dot, or is an IPv4 or hex-and-colon literal, is returned unchanged; a non-empty result ends in a dot or is such a literal; the result is normal |
| Names.ToFqdnIdempotent | app.js:40-47 | applying `toFqdn` twice equals applying it once |
| Names.ToAbsoluteName | app.js:49-55 | the result ends in a dot; an empty name or `@` gives the domain, a dotted name gives itself, a bare label gives label.domain, each with a final dot |
| Names.AbsoluteNameNormal | app.js:49-55 | with a blank-free domain the resolved name is normal |
| Names.ToAbsoluteNameIdempotent | app.js:49-55 | with a blank-free domain that is empty or dotted, resolving a resolved name changes nothing |
| Names.AbsoluteNameKeepsExtraDot | app.js:50-53 | `a..` resolves to `a..`: only one final dot is dropped |
| Names.Classify | app.js:373-383 | a host that reaches the deny-list lookup yields a first label that has no dot and does not start with `_` |
| Names.InferCfTag | app.js:373-399 | the corrected heuristic, with the deny-list lookup limited to the ten listed labels; the reference of the first finding, specified by `InferCfTagCases` |
| Names.InferCfTagCases | app.js:373-381 | a proxied name has a non-empty domain and is the domain or ends with `.` and the domain; the apex and `www.` under it are always proxied; any other name whose host starts with `_` is not |
| Names.InferCfTagIgnoresCase | app.js:374 | upper-casing the name does not change the decision |
| Names.InferCfTagOneLabel | app.js:377-398 | a one-label host under the domain is proxied if and only if it is `www`, or it does not start with `_` and is not on the deny list |
| Names.ClassifySubdomain | app.js:378-383 | for a host under the domain other than `www`: a host starting with `_` is decided false; otherwise its first label is looked up |
| Names.DeniedLabelNotProxied | app.js:383-397 | a name whose first host label is on the deny list is never proxied, whatever follows it |
| Names.InferCfTagAsWritten | app.js:384-397 | with the lookup as written, every name it proxies the corrected heuristic proxies too |
| Names.AsWrittenCases | app.js:373-399 | as written, a name is proxied exactly when the corrected heuristic proxies it and its first host label is not an inherited object member; the apex and `www.` under it are proxied |
| Names.ConstructorHostFinding | app.js:397 | `constructor.<domain>.` is not proxied as written, although the corrected heuristic proxies it |
| Names.PrototypeHostFinding | app.js:397 | every inherited object member that is not on the deny list, used as a host label, shows the same discrepancy |
| Quoting.QuotedTxt | app.js:57-59 | the result is at least two characters, opening and closing with a quote |
| Quoting.TwoPassesEscape | app.js:58 | doubling backslashes and then escaping quotes escapes each character on its own |
| Quoting.ReadEscaped | app.js:58 | reading escaped text followed by a closing quote gives back the text and what follows the quote |
| Quoting.QuotedRoundTrip | app.js:57-59 | reading a quoted string back gives the original text and leaves what follows it |
| Quoting.QuotedList | app.js:134 | a non-empty list gives text that starts with a quote |
| Quoting.QuotedListRoundTrip | app.js:134 | reading back a joined list of quoted strings gives exactly the original strings |
| Records.TypeNameRoundTrip | app.js:92 | type names and record types correspond one to one |
| Records.FirstToken | app.js:146 | `split(" ")[0]` is a prefix of the line without a space |
| Records.FirstTokenPrefix | app.js:190 | the first piece ends at the line's end or at a space |
| Records.MxValue | app.js:194-195 | a matched MX value is non-empty |
| Records.SrvValue | app.js:197-198 | a matched SRV value is non-empty |
| Records.CaaValue | app.js:202-203 | a matched CAA value is non-empty |
| Records.MxValueShape | app.js:194-195 | an MX value is two space-separated fields: digits, then a non-empty destination that `toFqdn` leaves unchanged |
| Records.ReadCaaOf | app.js:203 | a flag and tag without spaces and a quoted text read back as those three |
| Records.CaaRoundTrip | app.js:202-203 | a CAA value reads back as the matched flag, tag and normalised value |
| Pattern.Search | app.js:115 | a match gives one text per group of the pattern, each as long as the group's minimum and made of the group's class |
| Pattern.SearchSpec | app.js:115 | the search gives the groups of the greedy match, each run as long as the rest of the pattern still allows, at the leftmost position where the pattern matches; nothing only when it matches nowhere |
| Pattern.SearchFromFinds | app.js:115 | from any position on, the search reports the greedy match at the first position where there is a match, and nothing only when there is none |
| Pattern.RunLength | app.js:92 | a greedy run ends at the end of the text or at the first character not of its class |
| Pattern.RunLengthClass | app.js:92 | every character of a greedy run is of its class |
| Pattern.MatchAtFits | app.js:96 | a match anchored at a position gives one text per group, each as long as the group's minimum and made of the group's class |
| Pattern.MatchAtSound | app.js:96 | every match the backtracking matcher reports is a match: literals found ignoring case, each group exactly the characters its run took |
| Pattern.MatchAtComplete | app.js:96 | the backtracking matcher finds a match at a position whenever there is one there |
| Pattern.MatchAtGreedy | app.js:96 | the match the backtracking matcher reports is the greedy one: each run is the longest after which the rest of the pattern still matches |
| Pattern.GreedyMatches | app.js:96 | a greedy match is a match |
| Pattern.GreedyUnique | app.js:96 | at a given position there is at most one greedy match, so the groups a match reports are determined |
| Pattern.LeftmostUnique | app.js:115 | the greedy match at the leftmost matching position is unique |
| Pattern.MatchStart | app.js:92-97 | a start line gives a blank-free name, a TTL of digits and a non-empty word |
| Pattern.MatchStartSpec | app.js:92-97 | a start line gives the groups of the greedy match of the start pattern at the line's start, and nothing only when the pattern does not match there |
| Pattern.MatchMx | app.js:115 | an MX listing gives a priority of digits and a blank-free destination |
| Pattern.MatchMxLeftmost | app.js:115 | the MX reader gives the groups of the greedy match of the MX pattern at the leftmost position where it matches, and nothing only when the text holds no match |
| Listings.MxListingAt | app.js:115 | the MX pattern matches the listing `Priority: p Destination: d` at its start, with exactly `p` and `d` as its groups |
| Listings.MatchMxListing | app.js:115 | the MX reader gives back the priority and the destination of every such listing |
| Pattern.MatchSrv | app.js:123 | an SRV listing gives three digit fields and a blank-free target |
| Pattern.MatchSrvLeftmost | app.js:123 | the SRV reader gives the groups of the greedy match of the SRV pattern at the leftmost position where it matches, and nothing only when the text holds no match |
| Listings.SrvListingAt | app.js:123 | the SRV pattern matches `Priority: p Weight: w Port: n Target: t` at its start, with exactly the four values as its groups |
| Listings.MatchSrvListing | app.js:123 | the SRV reader gives back the four values of every such listing |
| Pattern.MatchCaa | app.js:202 | a CAA listing gives a flag of digits, an alphanumeric tag and a non-empty value without a line terminator |
| Pattern.MatchCaaLeftmost | app.js:202 | the CAA reader gives the groups of the greedy match of the CAA pattern at the leftmost position where it matches, and nothing only when the text holds no match |
| Listings.CaaListingAt | app.js:202 | the CAA pattern matches `Flag: f Tag: t Value: v` at its start, with exactly the three values as its groups |
| Listings.MatchCaaListing | app.js:202 | the CAA reader gives back the flag, the tag and the value of every such listing |
| Pattern.EmptyListing | app.js:113-127 | empty text holds no MX and no SRV listing |
| Scenarios.MxValueOfListing | app.js:194-195 | an MX listing gives its priority and its destination made absolute |
| Scenarios.SrvValueOfListing | app.js:197-198 | an SRV listing gives its priority, weight and port and its target made absolute |
| Scenarios.CaaValueOfListing | app.js:202-203 | a CAA listing gives its flag, its tag and its value normalised and quoted |
| Scenarios.MxExample | app.js:194-195 | `Priority: 10 Destination: mail.example.com` reads as `10` and `mail.example.com`, the value `10 mail.example.com.` |
| Scenarios.MxExampleOnlyMatch | app.js:115 | on that listing every leftmost greedy match of the MX pattern has exactly the groups `10` and `mail.example.com`, so no shorter priority such as `1` is admitted |
| Scenarios.SrvExample | app.js:197-198 | `Priority: 0 Weight: 5 Port: 5060 Target: sip.example.com` gives the value `0 5 5060 sip.example.com.` |
| Scenarios.CaaExample | app.js:202-203 | `Flag: 0 Tag: issue Value: letsencrypt.org` gives the value `0 issue "letsencrypt.org"` |
| PlainText.Lines | app.js:88-90 | at least one line, and every line is trimmed |
| PlainText.StartOf | app.js:96-97 | a start line gives its index, a blank-free name and a TTL of digits |
| PlainText.StartsExact | app.js:93-98 | the starts are in increasing line order; each is the start its line gives; every line that gives a start is among them |
| PlainText.KeepBody | app.js:107-111 | the kept lines are lines of the input that are not empty and not `actions` in any case, and every such input line is among them |
| PlainText.KeepBodyConcat | app.js:107-111 | filtering two lists one after the other gives the two filtered lists one after the other, so kept lines stay in their order |
| PlainText.KeepBodyOne | app.js:107-111 | a single line is kept exactly when it is not empty and not `actions` in any case |
| PlainText.BlockEnd | app.js:139 | a block ends after its start line and no later than the last line |
| PlainText.MxBody | app.js:113-119 | a non-empty body gives a non-empty MX value |
| PlainText.SrvBody | app.js:121-127 | a non-empty body gives a non-empty SRV value |
| PlainText.TxtParts | app.js:129-132 | every part is non-empty with no quote at either end |
| PlainText.TxtBody | app.js:133-134 | the value is empty exactly when no part is left |
| PlainText.TxtValueRoundTrip | app.js:129-135 | a TXT value reads back as its parts |
| PlainText.ValueNonEmpty | app.js:145-157 | for a type other than TXT, the value is empty exactly when the body is; for TXT, exactly when no part is left |
| PlainText.MxBodyShape | app.js:113-119 | an MX value is empty exactly when the body is; otherwise it is the first body line or a digits-and-absolute-name pair |
| PlainText.SrvBodyShape | app.js:121-127 | an SRV value is the matched priority, weight, port and absolute target when the joined body holds the SRV fields, the first body line when it does not, and empty exactly for an empty body |
| PlainText.ValueOf | app.js:145-157 | the definition of the per-type value rule; its properties are `ValueNonEmpty`, `MxBodyShape`, `SrvBodyShape` and `TxtValueRoundTrip` |
| PlainText.RecordOfWellFormed | app.js:141-167 | a block's record has a value, its start's TTL of digits, its start's type name, an absolute name and the proxy flag the object-literal lookup of app.js:384-397 gives |
| PlainText.RecordOf | app.js:141-167 | the definition: a block's name made absolute, its TTL, type and value, and the written proxy flag, or nothing for an empty value; its properties are `RecordOfWellFormed` and `ValueNonEmpty` |
| PlainText.Extract | app.js:87-171 | the definition: lines, starts, the domain and one outcome per start; its properties are the `Extract…` lemmas below |
| PlainText.Outcomes | app.js:137-168 | one outcome per start, each the record of that start's block |
| PlainText.ExtractDomain | app.js:100-104 | no start line gives an empty result; otherwise the domain is a valid domain or the base domain of the first name |
| PlainText.ExtractWellFormed | app.js:159-167 | every extracted record is well formed for the extracted domain |
| PlainText.ExtractOrder | app.js:137-168 | extracted records keep the order of their blocks: record j comes from an earlier block than record l |
| PlainText.ExtractComplete | app.js:137-168 | every block that yields a record contributes it to the result |
| PlainText.CollectStarts | app.js:93-98 | the loop collects exactly the start lines |
| PlainText.BlockLines | app.js:139-140 | the loop body gives exactly the kept lines of the block |
| PlainText.BlockRecord | app.js:141-167 | the per-type branches give exactly the block's record |
| PlainText.StartRecord | app.js:137-167 | one iteration gives the outcome of its start |
| PlainText.CollectRecords | app.js:137-168 | the loop collects exactly the records of the blocks, in order |
| PlainText.ParsePlainText | app.js:87-171 | the imperative extractor returns exactly the extraction specified above |
| Pasted.StartLineAt | app.js:92-97 | a line `name ttl WORD` with single blanks, a blank-free name, a TTL of digits and a word of word characters matches with exactly those three as its groups |
| Pasted.OneBlankNotStart | app.js:92-97 | a line with at most one blank never opens a record |
| Pasted.ThreeLines | app.js:88-90 | three trimmed lines without line breaks, joined by line feeds, read back as those lines |
| Pasted.OneBlock | app.js:100-170 | three lines of which only the first is a start line give the domain of that start's name and the record of that start with the other two lines as its body |
| Pasted.MxRecord | app.js:141-167 | the lines `Priority: p` and `Destination: d` under an MX start give the record with the absolute name, the start's TTL, the value `p` plus the absolute destination and the written proxy flag |
| Pasted.MxBlock | app.js:87-171 | a pasted MX block of a start line and the two field lines gives exactly one MX record: absolute name, the TTL, priority and absolute destination |
| Pasted.MailPaste | app.js:87-171 | `mail 1800 MX` / `Priority: 10` / `Destination: mail.example.com` under `example.com` gives `mail.example.com.`, TTL 1800, value `10 mail.example.com.`, not proxied |
| Html.FragmentPart | app.js:65-66 | a kept fragment is non-empty, not `path=/`, and has no quote at either end |
| Html.FragmentsKept | app.js:64-67 | each kept part comes from a fragment of the cell and satisfies the same conditions |
| Html.KeepFragments | app.js:62-67 | the loop keeps exactly the fragments' kept parts, in order |
| Html.ExtractTxtParts | app.js:61-73 | the parts are the kept fragments, or else the cell's normalised text when it is not blank |
| Html.TxtCellParts | app.js:61-73 | the definition: the kept fragments, or else the cell's normalised text when it is not blank; the loop `ExtractTxtParts` is proved equal to it |
| Html.TxtRoundTrip | app.js:200 | the TXT value is empty exactly when there are no parts, and it reads back as the parts |
| Html.RowOutcomes | app.js:178-209 | one outcome per row, each that row's record |
| Html.RowRecord | app.js:179-208 | the definition of one row's record; its properties are `TtlRule`, `ValuePresent`, `RowKept` and `RowWellFormed` |
| Html.RowValue | app.js:189-204 | the definition of a row's per-type value; its properties are `ValuePresent`, `TxtRoundTrip` and the method `ParseValue` that returns it |
| Html.RawTtl | app.js:180 | the definition of `norm(ttl cell text || default)`; its property is `TtlRule` |
| Html.TableDomain | app.js:174-175 | the definition of the table's domain; its property is `ExtractHtmlDomain` |
| Html.ExtractHtmlDomain | app.js:174-175 | the table's domain is the override when that is a valid domain, the first row's base domain when the override is empty, and always either a valid domain or that base domain |
| Html.ExtractHtml | app.js:173-212 | the definition: the first row's domain and one outcome per row; its properties are the `ExtractHtml…` lemmas below |
| Html.TtlRule | app.js:180-185 | the TTL is the row's normalised TTL when it is all digits, otherwise the default |
| Html.ValuePresent | app.js:189-204 | a value exists exactly when: the type is known, and the text is non-blank (A, AAAA, CNAME), the pattern matches (MX, SRV, CAA) or some TXT part is left |
| Html.RowKept | app.js:206-208 | a row gives a record under exactly the conditions of `ValuePresent` |
| Html.RowWellFormed | app.js:179-208 | with a digit default TTL, a row's record is well formed, its proxy flag the one the object-literal lookup gives |
| Html.ExtractHtmlWellFormed | app.js:173-211 | every extracted record is well formed for the extracted domain |
| Html.ExtractHtmlOrder | app.js:178-209 | extracted records keep row order |
| Html.ExtractHtmlComplete | app.js:178-209 | every row that yields a record contributes it |
| Html.ParseValue | app.js:189-204 | the per-type branches give exactly the row's value |
| Html.ParseRow | app.js:179-208 | one iteration gives exactly the row's record |
| Html.ParseRows | app.js:178-209 | the loop collects exactly the rows' records, in order |
| Html.ParseHtml | app.js:173-212 | the imperative extractor returns exactly the extraction specified above |
| Scenarios.WwwRowRecord | app.js:179-208 | a `www` A row with TTL 300 and address 203.0.113.9 in `example.com` gives `www.example.com.`, TTL 300, that address, proxied |
| Scenarios.OneRowTable | app.js:173-211 | a one-row table under a valid override is in that domain and holds what its row gives |
| Scenarios.WwwTable | app.js:173-211 | the table of that one row under `example.com` extracts to exactly that record |
| Scenarios.SpfFragments | app.js:61-67 | the TXT fragments `v=spf1` and `include:_spf.example.com` give two quoted strings joined by a blank, whatever the cell's own text |
| Scenarios.MailNotProxied | app.js:384-397 | `mail.example.com.` is not proxied |
| Scenarios.ApexProxied | app.js:377 | the apex `example.com.` is proxied |
| Scenarios.WwwProxied | app.js:377 | `www.example.com.` is proxied |
| Scenarios.AppProxied | app.js:383-398 | `app.example.com.` is proxied |
| Zone.ZoneDomain | app.js:402 | the resolved zone domain is always a valid domain |
| Zone.LineOutcomes | app.js:414-434 | one outcome per record, each that record's line |
| Zone.RecordLine | app.js:415-433 | the definition of one record's line; its properties are `TypedData`, `ProxyTag`, `LineFields` and `LineAvoidsNewline` |
| Zone.BuildZoneSpec | app.js:401-490 | the definition of the zone file; the method `BuildZone` is proved to return it |
| Zone.FormatRecord | app.js:415-433 | one iteration gives exactly the record's section and line |
| Zone.TypedData | app.js:421-433 | a line exists exactly for the seven type names, and its data is that type's data |
| Zone.Data | app.js:421-432 | the definition of a line's data field; its properties are `ProxyTag` and `TypedData` |
| Zone.FillBuckets | app.js:404-434 | each of the seven buckets holds exactly its type's lines, in record order |
| Zone.PushEntry | app.js:421-433 | pushing a line onto its bucket keeps every bucket equal to the filter of the entries so far |
| Zone.BucketAppend | app.js:421-433 | appending an entry extends exactly its own type's bucket |
| Zone.AddSection | app.js:450-484 | a section adds its banner, lines and blank line, and nothing for an empty bucket |
| Zone.Section | app.js:450-484 | the definition of one section; the method `AddSection` is proved to append it, and `OutputLines` and `ZoneListsEntry` state where its lines end up |
| Zone.BuildZone | app.js:401-490 | the method returns exactly the specified zone: header, sections in the fixed order, trailing line feed |
| Zone.ProxyTag | app.js:422-432 | A, AAAA and CNAME data end in the tag `true` if and only if the record is proxied, and in `false` otherwise; other types' data is the value unchanged |
| Zone.LineFields | app.js:415-432 | a record line splits at tabs into the resolved name, the TTL, `IN`, the type name and the data |
| Zone.TabLineSplits | app.js:422-432 | five tab-free fields joined by tabs split back into those fields |
| Zone.BucketComplete | app.js:414-434 | every entry's line is in its type's bucket |
| Zone.BucketSound | app.js:414-434 | every bucket line comes from an entry of that type |
| Zone.BucketsPartition | app.js:404-434 | the seven buckets together hold exactly as many lines as there are entries |
| Zone.LineAvoidsNewline | app.js:415-432 | with a blank-free domain and a default TTL without a line feed, a record line holds no line feed |
| Zone.HeaderAvoidsNewline | app.js:442-448 | the header lines hold no line feed |
| Zone.Header | app.js:442-448 | the definition of the seven header lines; its properties are `HeaderAvoidsNewline` and `OutputLines` |
| Zone.ZoneLinesAvoidNewline | app.js:442-484 | no line of the file holds a line feed |
| Zone.OutputLines | app.js:486-489 | splitting the output at line feeds gives back the file's lines and one empty piece after the final line feed |
| Zone.ZoneListsEntry | app.js:450-484 | every entry's line appears in the file |
| Zone.ZoneListsRecord | app.js:414-488 | every record that yields a line has that line in the file |
| Scenarios.WwwZoneLine | app.js:414-422 | the `www` record gives the line `www.example.com.`, tab, `300`, tab, `IN`, tab, `A`, tab, the address and ` ; cf_tags=cf-proxied:true` |
| Scenarios.ALine | app.js:415-422 | an A record with an absolute name, a digit TTL and a normal address gives the tab-separated line with the proxy tag of its flag |
| Editor.SetField | app.js:361-365 | the edited field shows the edit's text, normalised, or the boolean `text == "true"`; every other field is unchanged |
| Editor.ApplyEdit | app.js:357-366 | an edit changes only its own index; an out-of-range index changes nothing |
| Editor.ApplyEdits | app.js:357-366 | applying the edits keeps the list's length |
| Editor.LastEditWins | app.js:357-366 | the last edit of a field at an index determines that field |
| Editor.UntouchedFieldKept | app.js:355-366 | a field that no edit touches keeps its value |
| Editor.KeepComplete | app.js:368-370 | only records with a name, a type and a value are kept |
| Editor.KeepCompleteMembers | app.js:368-370 | a record is kept if and only if it was in the list and is complete |
| Editor.KeepCompleteFixes | app.js:368-370 | a list of complete records is kept unchanged |
| Editor.SpliceStart | app.js:595 | a non-negative index is used as is; a negative one counts from the end |
| Editor.RemoveAtSpec | app.js:595 | an in-range index removes exactly that record and keeps the others in order, as a multiset minus one; an out-of-range index removes nothing |
| Editor.RemoveAt | app.js:595 | the definition of `splice(idx, 1)` at an index already made non-negative; its property is `RemoveAtSpec` |
| Editor.Or | app.js:304-331 | with a non-empty fallback, `value \|\| fallback` is non-empty |
| Editor.RecordOfForm | app.js:336-347 | a record exists exactly when the value and the type are non-empty, and it holds the form's name, TTL, type, that value and the proxy flag |
| Editor.TypedValueAsWritten | app.js:313-334 | the definition of the written value branches; its properties are the `AsWritten…` lemmas |
| Editor.AsWrittenValuePresent | app.js:313-334 | as written, a value is built exactly when: the main value is there for A, AAAA and CNAME; the content or main value for TXT; always for MX, SRV and CAA |
| Editor.AsWrittenAddsWhenFilled | app.js:336-341 | as written, a record is added exactly when the type is one of the seven and those demands are met |
| Editor.AsWrittenRecordShape | app.js:303-347 | an added record has an absolute name, a value and the form's type; TXT and CAA are not proxied, other types follow the box; `AUTO` takes the default TTL or 3600, any other TTL is kept |
| Editor.AsWrittenTxtRoundTrip | app.js:325-327 | as written, a TXT value reads back as one string: the normalised content, else the main value |
| Editor.AsWrittenCaaRoundTrip | app.js:329-333 | as written, a CAA value reads back as the flag, the tag and the main value, even an empty one |
| Editor.AsWrittenMxFields | app.js:317-319 | as written, an MX value splits into the priority and the absolute mail server, which may be empty |
| Editor.TypedValue | app.js:266-296 | the corrected builder of the third finding, which needs each type's "(required)" input; its properties are `TypedValuePresent` and `FormAddsWhenFilled` |
| Editor.FormRecord | app.js:266-296 | the record the corrected builder adds; the reference of the third finding |
| Editor.AsWrittenAgrees | app.js:313-334 | when the required input is there and the content has no line feed, the written and the corrected builders give the same value |
| Editor.AsWrittenRecordAgrees | app.js:303-347 | on such forms both builders add the same record |
| Editor.FormTtl | app.js:307-308 | an `AUTO` TTL gives a non-empty TTL |
| Editor.FormDomain | app.js:304 | the definition of the form's domain; its property is `FormDomainRule` |
| Editor.FormDomainRule | app.js:304 | the form's domain is never empty: the domain field when it is valid, the last zone's domain or `example.com` when the field is empty, and always either a valid domain or that fallback |
| Editor.FormName | app.js:306 | the definition of the record's name; its property is `FormNameRule` |
| Editor.FormNameRule | app.js:306 | the record's name ends in a dot, and a blank name field gives the form's domain with a final dot |
| Editor.TypedValuePresent | app.js:266-296 | the corrected builder of the third finding builds a value exactly when the input its "(required)" label names is there |
| Editor.FormAddsWhenFilled | app.js:336-339 | a record is added if and only if the type is one of the seven and its required input is there |
| Editor.CaaValueRoundTrip | app.js:329-333 | with a main value, the CAA value reads back as the flag, the tag and the main value |
| Editor.MxValueFields | app.js:317-319 | with a mail server, the MX value splits into the priority and an absolute mail server |
| Editor.MxWithoutTargetFinding | app.js:317-319 | as written, an MX form without a mail server builds the value `10 `, which the corrected rule leaves empty |
| Editor.TxtLinesCollapseFinding | app.js:326-327 | as written, the content `a`, line feed, `b` becomes the single string `a b` |
| Editor.TxtLinesKept | app.js:326-327 | split before normalising, the same content reads back as the two strings `a` and `b` |
| Editor.BuildValue | app.js:311-334 | the type branches give exactly the value the written builder specifies, and the proxy flag: the box for A, AAAA and CNAME, false for TXT and CAA |
| Editor.FormValueAsWritten | app.js:311-334 | the definition of the value the form builds as written, nothing for an unknown type; its properties are `AsWrittenValuePresent`, `AsWrittenTxtRoundTrip`, `AsWrittenCaaRoundTrip` and `AsWrittenMxFields` |
| Editor.FormRecordAsWritten | app.js:303-347 | the definition of the record the form adds as written; its properties are `AsWrittenAddsWhenFilled`, `AsWrittenRecordShape` and `AsWrittenRecordAgrees` |
| Editor.RecordList.constructor | app.js:3 | the session starts with no records |
| Editor.RecordList.SyncFromEditor | app.js:353-371 | the new list is the old list with the edits applied and the incomplete records dropped |
| Editor.RecordList.DeleteClicked | app.js:589-599 | after the sync, a numeric index removes the record at the splice position; no index leaves the synced list |
| Editor.RecordList.AddFromForm | app.js:303-348 | the method reports an addition exactly when the written builder gives a record, and the new list is that record in front of the old records, or the old records |

## Left out

- Rendering, filtering and the DOM (app.js:75-85, app.js:214-250). These include `parseRows`, the table, the type filter, the status line, the event wiring, clipboard and download. They are I/O. The HTML extractor takes rows as values: the cell texts, an optional TTL cell and the TXT detail fragments.
- `updateAddFormByType` (app.js:252-301) only shows and hides inputs and sets labels. Its "(required)" labels are used only as the intended rule in the findings below.
- `nowStamp` (app.js:436-440) reads the clock. The export time is a parameter `stamp`.
- `lastGeneratedDomain` is a parameter of `BuildZone` and `AddFromForm` rather than module state. Storing it after a build is caller I/O.
- Regular expressions are not modelled in general. Only the four fixed patterns are, as piece sequences, with ASCII case folding.
- Text.ToLower: does not model `toLowerCase` outside ASCII. An input holding a character such as the Kelvin sign would lower-case differently.
- Text.ToUpper: does not model `toUpperCase` outside ASCII (app.js:181, app.js:417). A type cell `ſrv` (long s) upper-cases to `SRV` in JavaScript, so the row is kept there and dropped here.
- Text.Norm: its own contract states the shape of the result; the exact result is stated by `Text.NormWords`.
- Text.Trim: its own contract states only the ends; the exact result is stated by `Text.TrimSlice` and `Text.TrimUnique`.
- Text.Strip: its own contract states only the ends; the exact result is stated by `Text.StripSlice` and `Text.StripUnique`.
- Pattern.Search: its own contract states the shape of the groups; which match is reported is stated by `Pattern.SearchSpec`.
- Pattern.MatchStart: its own contract states the shape of the groups; the match is stated by `Pattern.MatchStartSpec`.
- Pattern.MatchMx: its own contract states the shape of the groups; the match is stated by `Pattern.MatchMxLeftmost` and `Listings.MatchMxListing`.
- Pattern.MatchSrv: its own contract states the shape of the groups; the match is stated by `Pattern.MatchSrvLeftmost` and `Listings.MatchSrvListing`.
- Pattern.MatchCaa: its own contract states the shape of the groups; the match is stated by `Pattern.MatchCaaLeftmost` and `Listings.MatchCaaListing`.
- PlainText.KeepBody: its own contract states which lines are kept, not their order; the order is stated by `PlainText.KeepBodyConcat` and `PlainText.KeepBodyOne`.
- Listings.MatchMxListing: covers only listings laid out as `Label: value` with single blanks and a final value without a colon; other layouts are covered only by the leftmost-match lemmas.
- Listings.MatchSrvListing: the same layout limit as the MX listing.
- Listings.MatchCaaListing: the same layout limit, and the value must be non-empty, start with a non-blank and hold no colon or line break.
- Pasted.StartLineAt: covers only start lines with single blanks between the three fields; wider gaps are covered only by `Pattern.MatchStartSpec`.
- Editor.TypedValue: the corrected builder is a reference for the third finding; `Editor.RecordList.AddFromForm` runs the written builder.
- `Number(...)` of an index attribute is modelled as an `int`, or no number for `NaN` (`DeleteClicked`). A fractional index is not modelled. The editor's `data-index` values are always integers.
- Editor.RecordList.SyncFromEditor: the edits are a list of (index, field, text) triples, in document order. How the DOM produces them is not modelled.
- A sync that drops records without a re-render can shift later indices. That depends on the DOM and is not captured.
- Html.ExtractHtml: requires at least one row, because app.js:174 reads `rows[0]`. The caller falls back to plain text when there is no row.
- Unicode code units: strings are sequences of Unicode scalar values, not UTF-16 code units.

## Findings

| source | as written | input that shows it | evidently intended | confidence | as-written member | corrected member |
|---|---|---|---|---|---|---|
| app.js:384-397 | the deny list is an object literal, so the lookup also finds inherited members such as `constructor`, which counts as denied | host `constructor.example.com.` with domain `example.com` | only the ten listed labels are denied | not executed | Names.ConstructorHostFinding | Names.InferCfTagOneLabel |
| app.js:326-327 | the TXT content is normalised before it is split at line feeds, so the split never sees a line feed | TXT content `a`, line feed, `b` gives one string `"a b"` | one quoted string per line, `"a" "b"` | not executed | Editor.TxtLinesCollapseFinding | Editor.TxtLinesKept |
| app.js:317-339 | MX, SRV and CAA values always hold the defaults, so an empty "(required)" main value still gives a non-empty value and the record is added | type MX with every input empty gives the value `10 ` | no record without the required main value | not executed | Editor.MxWithoutTargetFinding | Editor.FormAddsWhenFilled |
