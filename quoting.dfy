/**
  Zone-file character strings: `quotedTxt` and the space-separated lists of
  quoted strings that TXT values are made of, with a reader for them that
  undoes the quoting.
 */
module Quoting {
  import opened Wrappers
  import opened Text

  /** `quotedTxt(text)`: backslashes doubled, then quotes escaped, then the whole wrapped in quotes. */
  function QuotedTxt(t: string): (r: string)
    ensures |r| >= 2 && r[0] == '"' && r[|r| - 1] == '"'
  {
    "\"" + ReplaceAll(ReplaceAll(t, '\\', "\\\\"), '"', "\\\"") + "\""
  }

  /** One character as it appears between the quotes. */
  function EscapeChar(c: char): string {
    if c == '\\' then "\\\\" else if c == '"' then "\\\"" else [c]
  }

  function Escaped(t: string): string {
    if t == [] then [] else EscapeChar(t[0]) + Escaped(t[1..])
  }

  /** The two passes of `quotedTxt` escape each character on its own. */
  lemma {:induction false} TwoPassesEscape(t: string)
    ensures ReplaceAll(ReplaceAll(t, '\\', "\\\\"), '"', "\\\"") == Escaped(t)
  {
    if t != [] {
      TwoPassesEscape(t[1..]);
      var first := if t[0] == '\\' then "\\\\" else [t[0]];
      assert ReplaceAll(t, '\\', "\\\\") == first + ReplaceAll(t[1..], '\\', "\\\\");
      ReplaceAllConcat(first, ReplaceAll(t[1..], '\\', "\\\\"), '"', "\\\"");
      if t[0] == '\\' {
        assert ReplaceAll(first, '"', "\\\"") == "\\\\" by {
          assert first[1..] == "\\";
        }
      } else {
        assert ReplaceAll(first, '"', "\\\"") == EscapeChar(t[0]) by {
          assert first[1..] == [];
        }
      }
    }
  }

  /** Reads the inside of a quoted string up to its closing quote, undoing `\` escapes; gives the text and what follows. */
  function ReadBody(s: string): (r: Option<(string, string)>)
    ensures r.Some? ==> |r.value.1| < |s|
    decreases |s|
  {
    if s == [] then None
    else if s[0] == '"' then Some(([], s[1..]))
    else if s[0] == '\\' then
      if |s| < 2 then None
      else match ReadBody(s[2..])
        case Some((t, rest)) => Some(([s[1]] + t, rest))
        case None => None
    else match ReadBody(s[1..])
      case Some((t, rest)) => Some(([s[0]] + t, rest))
      case None => None
  }

  /** Reads one quoted string at the start of `s`. */
  function ReadQuoted(s: string): (r: Option<(string, string)>)
    ensures r.Some? ==> |r.value.1| < |s|
  {
    if s != [] && s[0] == '"' then ReadBody(s[1..]) else None
  }

  /** Reads quoted strings separated by single spaces, up to the end of `s`. */
  function ReadQuotedList(s: string): (r: Option<seq<string>>)
    ensures r.Some? ==> |r.value| >= 1
    decreases |s|
  {
    match ReadQuoted(s)
    case None => None
    case Some((t, rest)) =>
      if rest == [] then Some([t])
      else if rest[0] != ' ' then None
      else match ReadQuotedList(rest[1..])
        case Some(ts) => Some([t] + ts)
        case None => None
  }

  lemma {:induction false} ReadEscaped(t: string, rest: string)
    ensures ReadBody(Escaped(t) + "\"" + rest) == Some((t, rest))
  {
    if t == [] {
      assert Escaped(t) + "\"" + rest == "\"" + rest;
    } else {
      ReadEscaped(t[1..], rest);
      ReadEscapedStep(t, rest);
    }
  }

  /** One escaped character in front of text that reads back. */
  lemma ReadEscapedStep(t: string, rest: string)
    requires t != [] && ReadBody(Escaped(t[1..]) + "\"" + rest) == Some((t[1..], rest))
    ensures ReadBody(Escaped(t) + "\"" + rest) == Some((t, rest))
  {
    var tail := Escaped(t[1..]) + "\"" + rest;
    assert Escaped(t) + "\"" + rest == EscapeChar(t[0]) + tail by {
      assert Escaped(t) == EscapeChar(t[0]) + Escaped(t[1..]);
    }
    assert [t[0]] + t[1..] == t;
    if t[0] == '\\' || t[0] == '"' {
      assert EscapeChar(t[0]) == ['\\', t[0]];
      ReadPairStep(t[0], tail, t[1..], rest);
    } else {
      assert EscapeChar(t[0]) == [t[0]];
      ReadPlainStep(t[0], tail, t[1..], rest);
    }
  }

  lemma ReadPlainStep(c: char, tail: string, t: string, rest: string)
    requires c != '"' && c != '\\' && ReadBody(tail) == Some((t, rest))
    ensures ReadBody([c] + tail) == Some(([c] + t, rest))
  {
    assert ([c] + tail)[1..] == tail;
  }

  lemma ReadPairStep(c: char, tail: string, t: string, rest: string)
    requires ReadBody(tail) == Some((t, rest))
    ensures ReadBody(['\\', c] + tail) == Some(([c] + t, rest))
  {
    assert (['\\', c] + tail)[2..] == tail;
  }

  /** Reading back a quoted string gives the original text and leaves what follows it. */
  lemma QuotedRoundTrip(t: string, rest: string)
    ensures ReadQuoted(QuotedTxt(t) + rest) == Some((t, rest))
  {
    TwoPassesEscape(t);
    ReadEscaped(t, rest);
    var s := QuotedTxt(t) + rest;
    assert s[1..] == Escaped(t) + "\"" + rest;
  }

  /** `parts.map(quotedTxt).join(" ")`. */
  function QuotedList(parts: seq<string>): (r: string)
    ensures parts != [] ==> r != [] && r[0] == '"'
  {
    Join(seq(|parts|, i requires 0 <= i < |parts| => QuotedTxt(parts[i])), ' ')
  }

  /** A TXT value made of quoted fragments reads back as exactly those fragments. */
  lemma {:induction false} QuotedListRoundTrip(parts: seq<string>)
    requires parts != []
    ensures ReadQuotedList(QuotedList(parts)) == Some(parts)
    decreases |parts|
  {
    var qs := seq(|parts|, i requires 0 <= i < |parts| => QuotedTxt(parts[i]));
    if |parts| == 1 {
      QuotedRoundTrip(parts[0], []);
      assert QuotedTxt(parts[0]) + [] == QuotedTxt(parts[0]);
      assert QuotedList(parts) == QuotedTxt(parts[0]);
      assert parts == [parts[0]];
    } else {
      var tail := QuotedList(parts[1..]);
      assert qs[1..] == seq(|parts[1..]|, i requires 0 <= i < |parts[1..]| => QuotedTxt(parts[1..][i]));
      assert QuotedList(parts) == QuotedTxt(parts[0]) + (" " + tail);
      QuotedRoundTrip(parts[0], " " + tail);
      QuotedListRoundTrip(parts[1..]);
      assert (" " + tail)[1..] == tail;
      assert [parts[0]] + parts[1..] == parts;
    }
  }
}
