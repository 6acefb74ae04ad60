/** PHP's HTML helpers as used by the enquiry mailer: `htmlspecialchars` with
    the PHP 8.1 default flags (ENT_QUOTES), its inverse
    `htmlspecialchars_decode`, and `nl2br` with its default XHTML tag. */
module PhpHtml {

  import opened PhpStrings

  /** The characters `htmlspecialchars` rewrites. */
  predicate IsSpecial(c: char) {
    c == '&' || c == '"' || c == '\'' || c == '<' || c == '>'
  }

  /** The entity written for one character. */
  function Entity(c: char): (r: string)
    ensures |r| >= 1
    ensures !IsSpecial(c) ==> r == [c]
    ensures IsSpecial(c) ==> r[0] == '&' && |r| >= 4
  {
    match c
    case '&' => "&amp;"
    case '"' => "&quot;"
    case '\'' => "&#039;"
    case '<' => "&lt;"
    case '>' => "&gt;"
    case _ => [c]
  }

  /** `htmlspecialchars($s)` */
  function HtmlEscape(s: string): (r: string)
    ensures forall i :: 0 <= i < |r| ==> r[i] != '<' && r[i] != '>' && r[i] != '"' && r[i] != '\''
    ensures '\r' !in s && '\n' !in s ==> '\r' !in r && '\n' !in r
  {
    if s == [] then [] else Entity(s[0]) + HtmlEscape(s[1..])
  }

  /** `htmlspecialchars_decode($s)`, for the five entities above. */
  function HtmlUnescape(s: string): string {
    if s == [] then []
    else if |s| >= 5 && s[..5] == "&amp;" then "&" + HtmlUnescape(s[5..])
    else if |s| >= 6 && s[..6] == "&quot;" then "\"" + HtmlUnescape(s[6..])
    else if |s| >= 6 && s[..6] == "&#039;" then "'" + HtmlUnescape(s[6..])
    else if |s| >= 4 && s[..4] == "&lt;" then "<" + HtmlUnescape(s[4..])
    else if |s| >= 4 && s[..4] == "&gt;" then ">" + HtmlUnescape(s[4..])
    else [s[0]] + HtmlUnescape(s[1..])
  }

  /** Decoding consumes exactly the entity written for `c`. */
  lemma UnescapeEntity(c: char, t: string)
    ensures HtmlUnescape(Entity(c) + t) == [c] + HtmlUnescape(t)
  {
    var e := Entity(c);
    var s := e + t;
    if !IsSpecial(c) {
      assert s[0] == c && s[1..] == t;
      UnescapePlainHead(s);
    } else {
      UnescapeAt(s, e, t);
    }
  }

  /** A character other than '&' is copied as it is. */
  lemma UnescapePlainHead(s: string)
    requires s != [] && s[0] != '&'
    ensures HtmlUnescape(s) == [s[0]] + HtmlUnescape(s[1..])
  {
    assert |s| >= 5 ==> s[..5][0] == s[0];
    assert |s| >= 6 ==> s[..6][0] == s[0];
    assert |s| >= 4 ==> s[..4][0] == s[0];
  }

  /** One decoding step on a string that starts with an entity. */
  lemma UnescapeAt(s: string, e: string, t: string)
    requires e in {"&amp;", "&quot;", "&#039;", "&lt;", "&gt;"}
    requires s == e + t
    ensures e == "&amp;" ==> HtmlUnescape(s) == "&" + HtmlUnescape(t)
    ensures e == "&quot;" ==> HtmlUnescape(s) == "\"" + HtmlUnescape(t)
    ensures e == "&#039;" ==> HtmlUnescape(s) == "'" + HtmlUnescape(t)
    ensures e == "&lt;" ==> HtmlUnescape(s) == "<" + HtmlUnescape(t)
    ensures e == "&gt;" ==> HtmlUnescape(s) == ">" + HtmlUnescape(t)
  {
    assert s[..|e|] == e && s[|e|..] == t;
    var second := s[1];
    assert |s| >= 5 && s[..5] == "&amp;" ==> second == 'a' by {
      if |s| >= 5 && s[..5] == "&amp;" { assert s[..5][1] == second; }
    }
    assert |s| >= 6 && s[..6] == "&quot;" ==> second == 'q' by {
      if |s| >= 6 && s[..6] == "&quot;" { assert s[..6][1] == second; }
    }
    assert |s| >= 6 && s[..6] == "&#039;" ==> second == '#' by {
      if |s| >= 6 && s[..6] == "&#039;" { assert s[..6][1] == second; }
    }
    assert |s| >= 4 && s[..4] == "&lt;" ==> second == 'l' by {
      if |s| >= 4 && s[..4] == "&lt;" { assert s[..4][1] == second; }
    }
    assert second == e[1];
  }

  /** Escaping loses nothing: decoding the escaped text gives the original. */
  lemma {:induction false} UnescapeEscape(s: string)
    ensures HtmlUnescape(HtmlEscape(s)) == s
  {
    if s != [] {
      UnescapeEntity(s[0], HtmlEscape(s[1..]));
      UnescapeEscape(s[1..]);
      assert [s[0]] + s[1..] == s;
    }
  }

  /** Text with nothing to escape passes through unchanged. */
  lemma {:induction false} EscapePlain(s: string)
    requires forall i :: 0 <= i < |s| ==> !IsSpecial(s[i])
    ensures HtmlEscape(s) == s
  {
    if s != [] {
      EscapePlain(s[1..]);
      assert [s[0]] + s[1..] == s;
    }
  }

  /** The length of the line-break sequence `nl2br` sees at the front of `s`:
      "\r\n" and "\n\r" count as one sequence, a lone "\r" or "\n" as one. */
  function BreakLength(s: string): (k: nat)
    ensures k <= |s| && k <= 2
    ensures k > 0 <==> s != [] && IsLineBreak(s[0])
    ensures k == 2 <==> |s| >= 2 && ((s[0] == '\r' && s[1] == '\n') || (s[0] == '\n' && s[1] == '\r'))
    ensures forall i :: 0 <= i < k ==> IsLineBreak(s[i])
  {
    if s == [] || !IsLineBreak(s[0]) then 0
    else if |s| >= 2 && IsLineBreak(s[1]) && s[1] != s[0] then 2
    else 1
  }

  const BreakTag: string := "<br />"

  /** `nl2br($s)`: inserts "<br />" before every line-break sequence. */
  function Nl2br(s: string): string
    decreases |s|
  {
    if s == [] then []
    else if BreakLength(s) > 0 then
      BreakTag + s[..BreakLength(s)] + Nl2br(s[BreakLength(s)..])
    else [s[0]] + Nl2br(s[1..])
  }

  /** The number of line-break sequences in `s`, as `nl2br` groups them. */
  function BreakCount(s: string): nat
    decreases |s|
  {
    if s == [] then 0
    else if BreakLength(s) > 0 then 1 + BreakCount(s[BreakLength(s)..])
    else BreakCount(s[1..])
  }

  /** Deletes every "<br />" from `s`. */
  function RemoveBreakTags(s: string): string {
    if s == [] then []
    else if |s| >= 6 && s[..6] == BreakTag then RemoveBreakTags(s[6..])
    else [s[0]] + RemoveBreakTags(s[1..])
  }

  /** How often `c` occurs in `s`. */
  function CountChar(c: char, s: string): nat {
    if s == [] then 0 else (if s[0] == c then 1 else 0) + CountChar(c, s[1..])
  }

  lemma {:induction false} CountCharAppend(c: char, a: string, b: string)
    ensures CountChar(c, a + b) == CountChar(c, a) + CountChar(c, b)
  {
    if a == [] {
      assert a + b == b;
    } else {
      var s := a + b;
      assert s[0] == a[0];
      assert s[1..] == a[1..] + b;
      CountCharAppend(c, a[1..], b);
      assert CountChar(c, s) == (if a[0] == c then 1 else 0) + CountChar(c, a[1..] + b);
    }
  }

  lemma {:induction false} CountCharAbsent(c: char, s: string)
    requires forall i :: 0 <= i < |s| ==> s[i] != c
    ensures CountChar(c, s) == 0
  {
    if s != [] {
      CountCharAbsent(c, s[1..]);
    }
  }

  /** `nl2br` only inserts markup: in text without a '<', deleting the
      inserted tags gives the text back. */
  lemma {:induction false} RemoveBreakTagsNl2br(s: string)
    requires '<' !in s
    ensures RemoveBreakTags(Nl2br(s)) == s
    decreases |s|
  {
    if s != [] {
      var k := if BreakLength(s) > 0 then BreakLength(s) else 1;
      var head, rest := s[..k], s[k..];
      NoOpenSplit(s, k);
      RemoveBreakTagsNl2br(rest);
      Nl2brUnfold(s, k);
      RemoveCharsBeforeTagFree(head, Nl2br(rest));
      if BreakLength(s) > 0 {
        RemoveLeadingTag(head + Nl2br(rest));
      }
      assert head + rest == s;
    }
  }

  /** One step of `nl2br`: the tag for a leading line-break sequence, the
      sequence or character itself, then the rest. */
  lemma Nl2brUnfold(s: string, k: nat)
    requires s != [] && k == if BreakLength(s) > 0 then BreakLength(s) else 1
    ensures BreakLength(s) > 0 ==> Nl2br(s) == BreakTag + (s[..k] + Nl2br(s[k..]))
    ensures BreakLength(s) == 0 ==> Nl2br(s) == s[..k] + Nl2br(s[k..])
  {
    if BreakLength(s) == 0 {
      assert s[..1] == [s[0]] && s[1..] == s[k..];
    }
  }

  /** Both pieces of a string without '<' are without '<'. */
  lemma NoOpenSplit(s: string, k: nat)
    requires '<' !in s && k <= |s|
    ensures '<' !in s[..k] && '<' !in s[k..]
  {
    forall i | 0 <= i < |s| ensures s[i] != '<' { assert s[i] in s; }
  }

  lemma RemoveLeadingTag(t: string)
    ensures RemoveBreakTags(BreakTag + t) == RemoveBreakTags(t)
  {
    var u := BreakTag + t;
    assert u[..6] == BreakTag && u[6..] == t;
  }

  /** A prefix without '<' cannot start a tag, so it passes through. */
  lemma {:induction false} RemoveCharsBeforeTagFree(a: string, b: string)
    requires '<' !in a
    ensures RemoveBreakTags(a + b) == a + RemoveBreakTags(b)
  {
    if a == [] {
      assert a + b == b;
    } else {
      var s := a + b;
      assert s[0] == a[0] && a[0] != '<';
      assert !(|s| >= 6 && s[..6] == BreakTag) by {
        if |s| >= 6 { assert s[..6][0] == s[0]; }
      }
      assert s[1..] == a[1..] + b;
      assert '<' !in a[1..] by {
        forall i | 0 <= i < |a[1..]| ensures a[1..][i] != '<' { assert a[1..][i] == a[i + 1]; assert a[i + 1] in a; }
      }
      RemoveCharsBeforeTagFree(a[1..], b);
      assert [a[0]] + a[1..] == a;
    }
  }

  /** Every '<' in `nl2br`'s output is one it was given or the start of an
      inserted "<br />". */
  lemma {:induction false} CountOpenNl2br(s: string)
    ensures CountChar('<', Nl2br(s)) == CountChar('<', s) + BreakCount(s)
    decreases |s|
  {
    if s != [] {
      var k := BreakLength(s);
      if k > 0 {
        CountOpenNl2br(s[k..]);
        CountOpenBreakStep(s[..k], s[k..], Nl2br(s[k..]));
        assert s[..k] + s[k..] == s;
      } else {
        CountOpenNl2br(s[1..]);
      }
    }
  }

  lemma CountOpenBreakStep(head: string, rest: string, out: string)
    requires forall i :: 0 <= i < |head| ==> IsLineBreak(head[i])
    ensures CountChar('<', BreakTag + head + out) == 1 + CountChar('<', out)
    ensures CountChar('<', head + rest) == CountChar('<', rest)
  {
    CountCharAbsent('<', head);
    assert BreakTag + head + out == BreakTag + (head + out);
    CountCharAppend('<', BreakTag, head + out);
    CountCharAppend('<', head, out);
    CountCharAppend('<', head, rest);
    assert BreakTag[1..] == "br />";
    CountCharAbsent('<', "br />");
  }

  /** Line-break sequences are grouped the same in escaped and raw text,
      because escaping leaves '\r' and '\n' alone and writes entities that
      contain neither. */
  lemma {:induction false} BreakCountEscape(s: string)
    ensures BreakCount(HtmlEscape(s)) == BreakCount(s)
    decreases |s|
  {
    if s != [] {
      var k := BreakLength(s);
      if k == 0 {
        BreakCountEscape(s[1..]);
        BreakCountEscapeStep0(s);
      } else if k == 1 {
        BreakCountEscape(s[1..]);
        BreakCountEscapeStep1(s);
      } else {
        BreakCountEscape(s[2..]);
        BreakCountEscapeStep2(s);
      }
    }
  }

  /** A character that is no line break: its entity adds no sequence. */
  lemma BreakCountEscapeStep0(s: string)
    requires s != [] && BreakLength(s) == 0
    requires BreakCount(HtmlEscape(s[1..])) == BreakCount(s[1..])
    ensures BreakCount(HtmlEscape(s)) == BreakCount(s)
  {
    var en := Entity(s[0]);
    assert HtmlEscape(s) == en + HtmlEscape(s[1..]);
    EntityNoBreak(s[0]);
    BreakCountPlainPrefix(en, HtmlEscape(s[1..]));
  }

  /** The entity of a character that is no line break holds none. */
  lemma EntityNoBreak(c: char)
    requires !IsLineBreak(c)
    ensures forall i :: 0 <= i < |Entity(c)| ==> !IsLineBreak(Entity(c)[i])
  {
  }

  /** A one-character sequence is copied and counted once on both sides. */
  lemma BreakCountEscapeStep1(s: string)
    requires s != [] && BreakLength(s) == 1
    requires BreakCount(HtmlEscape(s[1..])) == BreakCount(s[1..])
    ensures BreakCount(HtmlEscape(s)) == BreakCount(s)
  {
    var e := HtmlEscape(s);
    assert e == [s[0]] + HtmlEscape(s[1..]);
    EscapeFirst(s[1..]);
    assert BreakLength(e) == 1;
    assert e[1..] == HtmlEscape(s[1..]);
  }

  /** A two-character sequence ("\r\n" or "\n\r") likewise. */
  lemma BreakCountEscapeStep2(s: string)
    requires |s| >= 2 && BreakLength(s) == 2
    requires BreakCount(HtmlEscape(s[2..])) == BreakCount(s[2..])
    ensures BreakCount(HtmlEscape(s)) == BreakCount(s)
  {
    var e := HtmlEscape(s);
    EscapeTwo(s);
    BreakCountPair(s);
    BreakCountPair(e);
  }

  /** Two leading line-break characters pass through escaping unchanged. */
  lemma EscapeTwo(s: string)
    requires |s| >= 2 && IsLineBreak(s[0]) && IsLineBreak(s[1])
    ensures var e := HtmlEscape(s);
      |e| >= 2 && e[0] == s[0] && e[1] == s[1] && e[2..] == HtmlEscape(s[2..])
  {
    EscapeCons(s);
    EscapeCons(s[1..]);
    assert s[1..][1..] == s[2..];
  }

  /** A character with nothing to escape is copied in front. */
  lemma EscapeCons(s: string)
    requires s != [] && !IsSpecial(s[0])
    ensures HtmlEscape(s) == [s[0]] + HtmlEscape(s[1..])
  {
  }

  /** "\r\n" or "\n\r" in front is one sequence. */
  lemma BreakCountPair(u: string)
    requires |u| >= 2 && IsLineBreak(u[0]) && IsLineBreak(u[1]) && u[0] != u[1]
    ensures BreakCount(u) == 1 + BreakCount(u[2..])
  {
    assert BreakLength(u) == 2;
  }

  /** The escaped text starts with a line break exactly when the raw text
      starts with the same one. */
  lemma EscapeFirst(s: string)
    ensures HtmlEscape(s) != [] && IsLineBreak(HtmlEscape(s)[0]) <==> s != [] && IsLineBreak(s[0])
    ensures s != [] && IsLineBreak(s[0]) ==> HtmlEscape(s)[0] == s[0]
  {
    if s != [] {
      assert HtmlEscape(s) == Entity(s[0]) + HtmlEscape(s[1..]);
    }
  }

  /** A prefix without line breaks does not change the count. */
  lemma {:induction false} BreakCountPlainPrefix(a: string, b: string)
    requires forall i :: 0 <= i < |a| ==> !IsLineBreak(a[i])
    ensures BreakCount(a + b) == BreakCount(b)
  {
    if a == [] {
      assert a + b == b;
    } else {
      assert (a + b)[0] == a[0];
      assert BreakLength(a + b) == 0;
      assert (a + b)[1..] == a[1..] + b;
      BreakCountPlainPrefix(a[1..], b);
    }
  }
}
