/** PHP string built-ins used by both form handlers: `trim`, `empty` on a
    string, `strpos(...) !== false`, the `??` lookup of an array key, and a
    line splitter (`explode("\n", ...)`) used to state body layouts. */
module PhpStrings {

  /** The characters PHP's `trim` strips by default: " \t\n\r\0\x0B". */
  predicate IsTrimChar(c: char) {
    c == ' ' || c == '\t' || c == '\n' || c == '\r' || c == '\0' || c == '\U{0B}'
  }

  /** Carriage return or line feed. */
  predicate IsLineBreak(c: char) {
    c == '\r' || c == '\n'
  }

  /** `ltrim($s)` */
  function TrimLeft(s: string): (r: string)
    ensures |r| <= |s| && r == s[|s| - |r|..]
    ensures forall i :: 0 <= i < |s| - |r| ==> IsTrimChar(s[i])
    ensures r == [] || !IsTrimChar(r[0])
  {
    if s != [] && IsTrimChar(s[0]) then TrimLeft(s[1..]) else s
  }

  /** `rtrim($s)` */
  function TrimRight(s: string): (r: string)
    ensures |r| <= |s| && r == s[..|r|]
    ensures forall i :: |r| <= i < |s| ==> IsTrimChar(s[i])
    ensures r == [] || !IsTrimChar(r[|r| - 1])
  {
    if s != [] && IsTrimChar(s[|s| - 1]) then TrimRight(s[..|s| - 1]) else s
  }

  /** `trim($s)`: strips trim characters from both ends. */
  function Trim(s: string): (r: string)
    ensures r == [] || (!IsTrimChar(r[0]) && !IsTrimChar(r[|r| - 1]))
  {
    TrimRight(TrimLeft(s))
  }

  /** What `trim` removed is trim characters only, and what it kept is one
      contiguous piece of the input. */
  lemma TrimDecomposition(s: string)
    ensures var k := |s| - |TrimLeft(s)|;
            var r := Trim(s);
            k + |r| <= |s|
            && s[k..k + |r|] == r
            && (forall i :: 0 <= i < k ==> IsTrimChar(s[i]))
            && (forall i :: k + |r| <= i < |s| ==> IsTrimChar(s[i]))
  {
    var l := TrimLeft(s);
    var k := |s| - |l|;
    var r := TrimRight(l);
    assert r == Trim(s);
    assert l == s[k..];
    assert r == l[..|r|];
    assert s[k..k + |r|] == l[..|r|];
    forall i | k + |r| <= i < |s|
      ensures IsTrimChar(s[i])
    {
      assert s[i] == l[i - k];
      assert |r| <= i - k < |l|;
    }
  }

  /** A string that starts and ends with a kept character is its own trim. */
  lemma {:induction false} TrimFixpoint(s: string)
    requires s == [] || (!IsTrimChar(s[0]) && !IsTrimChar(s[|s| - 1]))
    ensures Trim(s) == s
  {
  }

  lemma TrimIdempotent(s: string)
    ensures Trim(Trim(s)) == Trim(s)
  {
    TrimFixpoint(Trim(s));
  }

  /** The form handlers' "field is empty" test: the trimmed value is '' exactly
      when the raw value consists of trim characters only. */
  lemma TrimEmptyIff(s: string)
    ensures Trim(s) == [] <==> forall i :: 0 <= i < |s| ==> IsTrimChar(s[i])
  {
    TrimDecomposition(s);
  }

  /** PHP `empty($s)` on a string: true for '' and for '0'. */
  predicate IsPhpEmpty(s: string) {
    s == "" || s == "0"
  }

  /** `needle` occurs in `hay` at offset `i`. */
  predicate OccursAt(hay: string, needle: string, i: int) {
    0 <= i && i + |needle| <= |hay| && hay[i..i + |needle|] == needle
  }

  /** `strpos($hay, $needle) !== false` */
  predicate Contains(hay: string, needle: string) {
    exists i :: 0 <= i <= |hay| && OccursAt(hay, needle, i)
  }

  /** `strpos` matches anywhere, so any text around the needle is accepted. */
  lemma ContainsInfix(pre: string, needle: string, post: string)
    ensures Contains(pre + needle + post, needle)
  {
    var h := pre + needle + post;
    assert h[|pre|..|pre| + |needle|] == needle;
    assert OccursAt(h, needle, |pre|);
  }

  /** `$data[$key] ?? ''` for a mapping of strings. */
  function FieldOr(data: map<string, string>, key: string, default: string): string {
    if key in data then data[key] else default
  }

  /** `explode("\n", $s)`: the lines of `s`, always at least one. */
  function Lines(s: string): (ls: seq<string>)
    ensures |ls| >= 1
  {
    if s == [] then [""]
    else if s[0] == '\n' then [""] + Lines(s[1..])
    else
      var rest := Lines(s[1..]);
      [[s[0]] + rest[0]] + rest[1..]
  }

  /** `implode("\n", $ls)` */
  function Unlines(ls: seq<string>): string
    requires |ls| >= 1
  {
    if |ls| == 1 then ls[0] else ls[0] + "\n" + Unlines(ls[1..])
  }

  /** A line terminated by "\n" comes off the front of the split. */
  lemma {:induction false} LinesCons(a: string, b: string)
    requires '\n' !in a
    ensures Lines(a + "\n" + b) == [a] + Lines(b)
  {
    if a == [] {
      assert a + "\n" + b == "\n" + b;
      assert ("\n" + b)[1..] == b;
    } else {
      assert (a + "\n" + b)[1..] == a[1..] + "\n" + b;
      LinesCons(a[1..], b);
      assert [a[0]] + a[1..] == a;
    }
  }

  /** A leading line feed is an empty first line. */
  lemma LinesBlank(t: string)
    ensures Lines("\n" + t) == [""] + Lines(t)
  {
    assert ("\n" + t)[1..] == t;
  }

  /** Two lines terminated by "\n" come off the front of the split. */
  lemma LinesTwo(x: string, y: string, t: string)
    requires '\n' !in x && '\n' !in y
    ensures Lines(x + "\n" + (y + "\n" + t)) == [x, y] + Lines(t)
  {
    LinesCons(y, t);
    LinesCons(x, y + "\n" + t);
  }

  /** Free text followed by a line feed, after one more line. */
  lemma LinesLast(x: string, m: string)
    requires '\n' !in x
    ensures Lines(x + "\n" + (m + "\n")) == [x] + Lines(m) + [""]
  {
    LinesSnoc(m);
    LinesCons(x, m + "\n");
  }

  /** Splitting and joining at line feeds are inverse. */
  lemma {:induction false} UnlinesLines(s: string)
    ensures Unlines(Lines(s)) == s
  {
    if s == [] {
    } else if s[0] == '\n' {
      UnlinesLines(s[1..]);
      var rest := Lines(s[1..]);
      assert Lines(s) == [""] + rest;
      if |rest| == 1 {
        assert rest == [s[1..]];
      }
    } else {
      UnlinesLines(s[1..]);
      var rest := Lines(s[1..]);
      var ls := Lines(s);
      assert ls == [[s[0]] + rest[0]] + rest[1..];
      if |rest| == 1 {
        assert ls == [[s[0]] + s[1..]];
      } else {
        assert ls[1..] == rest[1..];
        assert Unlines(rest) == rest[0] + "\n" + Unlines(rest[1..]);
      }
    }
  }

  /** A trailing line feed adds one empty last line. */
  lemma {:induction false} LinesSnoc(s: string)
    ensures Lines(s + "\n") == Lines(s) + [""]
  {
    if s == [] {
      assert Lines("\n") == [""] + Lines("");
    } else {
      assert (s + "\n")[1..] == s[1..] + "\n";
      LinesSnoc(s[1..]);
    }
  }
}
