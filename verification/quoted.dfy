/** `re.findall(r'"(.*?)"', s)` as a left-to-right scanner.

    At each position the pattern needs a `"`; the lazy `.*?` then takes the
    fewest characters up to the next `"`, and `.` never matches a newline.
    When no closing quote comes before a newline or the end, the attempt at
    that position fails and the scan moves one character on; after a match
    it resumes just past the closing quote. The group, the text between the
    quotes, is what `findall` returns. */
module Quoted {
  import opened Values

  /** Where the lazy `.*?"` ends when it starts at the front of `s`: the index of the
      first quote, unless a newline comes before it. */
  function CloseAt(s: string): (r: Option<nat>)
    ensures r.Some? ==> (r.value < |s| && s[r.value] == '"' &&
                         '"' !in s[..r.value] && '\n' !in s[..r.value])
    ensures r.None? ==> forall p :: 0 <= p < |s| && s[p] == '"' ==> '\n' in s[..p]
  {
    if s == [] then None
    else if s[0] == '"' then Some(0)
    else if s[0] == '\n' then None
    else
      match CloseAt(s[1..])
      case Some(c) =>
        assert s[..c + 1] == [s[0]] + s[1..][..c];
        Some(c + 1)
      case None =>
        assert forall p :: 1 <= p < |s| ==> s[..p] == [s[0]] + s[1..][..p - 1];
        None
  }

  /** `re.findall(r'"(.*?)"', s)`, scanning from the left: every match is free of
      quotes and newlines, and a text without a quote has no match at all. */
  function FindQuoted(s: string): (r: seq<string>)
    decreases |s|
    ensures forall k :: 0 <= k < |r| ==> '"' !in r[k] && '\n' !in r[k]
    ensures '"' !in s ==> r == []
  {
    if s == [] then []
    else if s[0] == '"' then
      match CloseAt(s[1..])
      case Some(c) => [s[1..c + 1]] + FindQuoted(s[c + 2..])
      case None => FindQuoted(s[1..])
    else FindQuoted(s[1..])
  }

  /** Completeness: there is no match exactly when no quote in the text can open one, that
      is, when a newline or the end comes before the next quote after every quote. */
  lemma {:induction false} FindQuotedEmptyIff(s: string)
    decreases |s|
    ensures FindQuoted(s) == [] <==>
      forall p :: 0 <= p < |s| && s[p] == '"' ==> CloseAt(s[p + 1..]).None?
  {
    if s != [] {
      FindQuotedEmptyIff(s[1..]);
      assert forall p :: 1 <= p < |s| ==> s[p + 1..] == s[1..][p..];
      if !(s[0] == '"' && CloseAt(s[1..]).Some?) {
        assert FindQuoted(s) == FindQuoted(s[1..]);
      }
    }
  }

  /** The text outside the matches: what lies before the first match's opening quote,
      between consecutive matches, and after the last match's closing quote. */
  function Between(s: string): (r: seq<string>)
    decreases |s|
    ensures |r| == |FindQuoted(s)| + 1
  {
    if s == [] then [""]
    else if s[0] == '"' && CloseAt(s[1..]).Some? then
      [""] + Between(s[CloseAt(s[1..]).value + 2..])
    else
      var rest := Between(s[1..]);
      [[s[0]] + rest[0]] + rest[1..]
  }

  /** The outside pieces and the matches, each put back between its quotes, in turn. */
  function Weave(gaps: seq<string>, words: seq<string>): string
    requires |gaps| == |words| + 1
  {
    if words == [] then gaps[0]
    else gaps[0] + "\"" + words[0] + "\"" + Weave(gaps[1..], words[1..])
  }

  /** The matches come out in the order they occur and do not overlap: the input is
      exactly the text outside them interleaved with the matches in their quotes. */
  lemma {:induction false} FindQuotedCoversInput(s: string)
    decreases |s|
    ensures s == Weave(Between(s), FindQuoted(s))
  {
    if s == [] {
    } else if s[0] == '"' && CloseAt(s[1..]).Some? {
      var c := CloseAt(s[1..]).value;
      FindQuotedCoversInput(s[c + 2..]);
      CoversAtMatch(s, c);
    } else {
      FindQuotedCoversInput(s[1..]);
      WeaveFront(s[0], Between(s[1..]), FindQuoted(s[1..]));
      assert s == [s[0]] + s[1..];
    }
  }

  /** The step of FindQuotedCoversInput where a match starts at the front. */
  lemma CoversAtMatch(s: string, c: nat)
    requires s != [] && s[0] == '"' && CloseAt(s[1..]) == Some(c)
    requires s[c + 2..] == Weave(Between(s[c + 2..]), FindQuoted(s[c + 2..]))
    ensures s == Weave(Between(s), FindQuoted(s))
  {
    var tail := s[c + 2..];
    assert Between(s) == [""] + Between(tail);
    assert FindQuoted(s) == [s[1..c + 1]] + FindQuoted(tail);
    WeaveHead("", s[1..c + 1], Between(tail), FindQuoted(tail));
    QuoteSplit(s, c + 1);
  }

  lemma WeaveHead(g: string, w: string, gaps: seq<string>, words: seq<string>)
    requires |gaps| == |words| + 1
    ensures Weave([g] + gaps, [w] + words) == g + "\"" + w + "\"" + Weave(gaps, words)
  {
    assert ([g] + gaps)[1..] == gaps && ([w] + words)[1..] == words;
  }

  lemma QuoteSplit(s: string, e: nat)
    requires 0 < e < |s| && s[0] == '"' && s[e] == '"'
    ensures s == "" + "\"" + s[1..e] + "\"" + s[e + 1..]
  {
    assert s == [s[0]] + s[1..e] + [s[e]] + s[e + 1..];
  }

  /** Putting a character in front of the first outside piece puts it in front of the whole. */
  lemma {:induction false} WeaveFront(ch: char, gaps: seq<string>, words: seq<string>)
    requires |gaps| == |words| + 1
    ensures Weave([[ch] + gaps[0]] + gaps[1..], words) == [ch] + Weave(gaps, words)
  {
    var g := [[ch] + gaps[0]] + gaps[1..];
    assert g[0] == [ch] + gaps[0];
    if words != [] {
      assert g[1..] == gaps[1..];
      var tail := "\"" + words[0] + "\"" + Weave(gaps[1..], words[1..]);
      assert Weave(g, words) == g[0] + tail;
      assert Weave(gaps, words) == gaps[0] + tail;
      assert ([ch] + gaps[0]) + tail == [ch] + (gaps[0] + tail);
    }
  }

  lemma {:induction false} CloseAtWord(w: string, t: string)
    requires '"' !in w && '\n' !in w
    ensures CloseAt(w + "\"" + t) == Some(|w|)
  {
    if w != [] {
      assert (w + "\"" + t)[1..] == w[1..] + "\"" + t;
      CloseAtWord(w[1..], t);
    }
  }

  /** A quoted word at the front is the first match, and the scan resumes behind it. */
  lemma FindQuotedAfterWord(w: string, t: string)
    requires '"' !in w && '\n' !in w
    ensures FindQuoted("\"" + w + "\"" + t) == [w] + FindQuoted(t)
  {
    var s := "\"" + w + "\"" + t;
    assert s[1..] == w + "\"" + t;
    CloseAtWord(w, t);
    assert s[1..|w| + 1] == w;
    assert s[|w| + 2..] == t;
  }

  /** Text without a quote in front of `t` yields no match of its own. */
  lemma {:induction false} FindQuotedAfterUnquoted(u: string, t: string)
    requires '"' !in u
    ensures FindQuoted(u + t) == FindQuoted(t)
  {
    if u != [] {
      assert (u + t)[1..] == u[1..] + t;
      FindQuotedAfterUnquoted(u[1..], t);
    } else {
      assert u + t == t;
    }
  }

  /** The skills written the way a model writes a list of strings, `"a", "b", "c"`. */
  function QuotedList(ws: seq<string>): string
  {
    if ws == [] then ""
    else if |ws| == 1 then "\"" + ws[0] + "\""
    else "\"" + ws[0] + "\", " + QuotedList(ws[1..])
  }

  /** Round trip: scanning a quoted, comma-separated list recovers the words in order,
      as long as no word holds a quote or a newline. */
  lemma {:induction false} FindQuotedOfQuotedList(ws: seq<string>)
    requires forall k :: 0 <= k < |ws| ==> '"' !in ws[k] && '\n' !in ws[k]
    ensures FindQuoted(QuotedList(ws)) == ws
  {
    if ws == [] {
    } else if |ws| == 1 {
      FindQuotedAfterWord(ws[0], "");
      assert "\"" + ws[0] + "\"" + "" == QuotedList(ws);
    } else {
      var rest := QuotedList(ws[1..]);
      assert QuotedList(ws) == "\"" + ws[0] + "\"" + (", " + rest);
      FindQuotedAfterWord(ws[0], ", " + rest);
      FindQuotedAfterUnquoted(", ", rest);
      FindQuotedOfQuotedList(ws[1..]);
    }
  }
}
