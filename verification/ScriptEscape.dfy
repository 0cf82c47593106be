/**
 * Embedding JSON text in a script element: the escape leaves nothing that can end or nest the
 * element, and the escaped text lexes to the same tokens.
 */
module ScriptEscape {
  import opened Trees

  function Lower(c: char): char {
    if 'A' <= c <= 'Z' then (c as int + 32) as char else c
  }

  /** The word, in any letter case. */
  predicate StartsWith(s: string, word: string) {
    |word| <= |s| && forall i :: 0 <= i < |word| ==> Lower(s[i]) == word[i]
  }

  /** How long the word after the < is, if the text starts with a sequence that must not stay; else 0. */
  function Breaks(s: string): (n: nat)
    ensures n > 0 ==> n < |s| && s[0] == '<' && forall i :: 0 < i <= n ==> s[i] != '<' && s[i] != '\n'
  {
    if s == "" || s[0] != '<' then 0
    else if StartsWith(s[1..], "script") then
      Named(s, "script"); 6
    else if StartsWith(s[1..], "/script") then
      Named(s, "/script"); 7
    else if StartsWith(s[1..], "!--") then
      Named(s, "!--"); 3
    else 0
  }

  lemma {:induction false} Named(s: string, word: string)
    requires s != "" && StartsWith(s[1..], word) && '<' !in word && '\n' !in word
    ensures |word| < |s| && forall i :: 0 < i <= |word| ==> s[i] != '<' && s[i] != '\n'
  {
    forall i | 0 < i <= |word|
      ensures s[i] != '<' && s[i] != '\n'
    {
      assert Lower(s[1..][i - 1]) == word[i - 1] && word[i - 1] in word;
    }
  }

  const CAPITALS := "ABCDEFGHIJKLMNOPQRSTUVWXYZ"
  const SMALL := "abcdefghijklmnopqrstuvwxyz"

  /** c is w, or the capital of w. */
  predicate Matches(c: char, w: char) {
    c == w || exists k :: 0 <= k < 26 && SMALL[k] == w && CAPITALS[k] == c
  }

  /** The word stands in s at i, in any letter case. */
  predicate StandsAt(s: string, i: nat, word: string) {
    i + |word| <= |s| && forall j :: 0 <= j < |word| ==> Matches(s[i + j], word[j])
  }

  /** At i there is a sequence that ends a script element, or changes how its end is found. */
  predicate BreaksOut(s: string, i: nat) {
    StandsAt(s, i, "<script") || StandsAt(s, i, "</script") || StandsAt(s, i, "<!--")
  }

  lemma {:induction false} Letters26(k: nat)
    requires k < 26
    ensures |SMALL| == |CAPITALS| == 26
    ensures SMALL[k] as int == 'a' as int + k && CAPITALS[k] as int == 'A' as int + k
  {}

  lemma {:induction false} LowerPair(c: char, w: char)
    requires Lower(c) == w && c != w
    ensures Matches(c, w)
  {
    Letters26(c as int - 'A' as int);
  }

  lemma {:induction false} PairLower(c: char, w: char, k: nat)
    requires k < 26 && SMALL[k] == w && CAPITALS[k] == c
    ensures Lower(c) == w
  {
    Letters26(k);
  }

  lemma {:induction false} LowerMatches(c: char, w: char)
    requires !('A' <= w <= 'Z')
    ensures Lower(c) == w <==> Matches(c, w)
  {
    if c == w {
      assert Lower(c) == w;
    } else if Lower(c) == w {
      LowerPair(c, w);
    } else if k: nat :| k < 26 && SMALL[k] == w && CAPITALS[k] == c {
      PairLower(c, w, k);
      assert false;
    }
  }

  lemma {:induction false} WordStands(s: string, i: nat, word: string)
    requires i < |s| && s[i] == '<' && forall j :: 0 <= j < |word| ==> !('A' <= word[j] <= 'Z')
    ensures StartsWith(s[i..][1..], word) <==> StandsAt(s, i, "<" + word)
  {
    var tail, whole := s[i..][1..], "<" + word;
    forall j | 0 <= j < |word| && |word| <= |tail|
      ensures Lower(tail[j]) == word[j] <==> Matches(s[i + (j + 1)], whole[j + 1])
    {
      LowerMatches(tail[j], word[j]);
    }
    if StandsAt(s, i, whole) {
      forall j | 0 <= j < |word|
        ensures Lower(tail[j]) == word[j]
      {
        assert Matches(s[i + (j + 1)], whole[j + 1]);
      }
    }
  }

  lemma {:induction false} StandsOnLess(s: string, i: nat, word: string)
    requires i < |s| && word != "" && word[0] == '<'
    ensures StandsAt(s, i, word) ==> s[i] == '<'
  {
    LowerMatches(s[i], '<');
    if StandsAt(s, i, word) {
      assert Matches(s[i + 0], word[0]);
    }
  }

  /** The escaper stops exactly where such a sequence stands. */
  lemma {:induction false} BreaksExactly(s: string, i: nat)
    requires i < |s|
    ensures Breaks(s[i..]) > 0 <==> BreaksOut(s, i)
  {
    if s[i] == '<' {
      WordStands(s, i, "script");
      WordStands(s, i, "/script");
      WordStands(s, i, "!--");
      assert "<" + "script" == "<script" && "<" + "/script" == "</script" && "<" + "!--" == "<!--";
    } else {
      StandsOnLess(s, i, "<script");
      StandsOnLess(s, i, "</script");
      StandsOnLess(s, i, "<!--");
    }
  }

  const LESS := "\\u003c"

  /** One pass from left to right; a match is taken as a whole. */
  function EscapeScript(s: string): string
    decreases |s|
  {
    if s == "" then ""
    else
      var n := Breaks(s);
      if n > 0 then LESS + s[1..n + 1] + EscapeScript(s[n + 1..])
      else [s[0]] + EscapeScript(s[1..])
  }

  lemma {:induction false} Behead(a: string, b: string)
    requires a != ""
    ensures (a + b)[1..] == a[1..] + b && a == [a[0]] + a[1..]
  {}

  lemma {:induction false} EscapePlain(a: string, b: string)
    requires forall i :: 0 <= i < |a| ==> a[i] != '<'
    ensures EscapeScript(a + b) == a + EscapeScript(b)
    decreases |a|
  {
    if a == "" {
      assert a + b == b;
    } else {
      Behead(a, b);
      EscapePlain(a[1..], b);
      Assoc([a[0]], a[1..], EscapeScript(b));
    }
  }

  function EscapeChar(s: string): string
    requires s != ""
  {
    if Breaks(s) > 0 then LESS else [s[0]]
  }

  lemma {:induction false} Cut(s: string, n: nat)
    requires n < |s|
    ensures s[1..] == s[1..n + 1] + s[n + 1..]
  {}

  lemma {:induction false} EscapeMatch(s: string, n: nat)
    requires n == Breaks(s) && n > 0
    ensures EscapeScript(s) == LESS + EscapeScript(s[1..])
  {
    Cut(s, n);
    EscapePlain(s[1..n + 1], s[n + 1..]);
    Assoc(LESS, s[1..n + 1], EscapeScript(s[n + 1..]));
  }

  lemma {:induction false} EscapeStep(s: string)
    requires s != ""
    ensures EscapeScript(s) == EscapeChar(s) + EscapeScript(s[1..])
  {
    if Breaks(s) > 0 {
      EscapeMatch(s, Breaks(s));
    }
  }

  /** Character by character: a less-than sign that starts such a sequence is escaped, all else is kept. */
  lemma {:induction false} EscapeHead(s: string)
    ensures EscapeScript(s) ==
            if s == "" then "" else (if BreaksOut(s, 0) then "\\u003c" else [s[0]]) + EscapeScript(s[1..])
  {
    if s != "" {
      EscapeStep(s);
      BreaksExactly(s, 0);
      assert s[0..] == s;
    }
  }

  // ---------------------------------------------------------------------
  // Nothing breaks out
  // ---------------------------------------------------------------------

  ghost predicate Harmless(s: string) {
    forall i :: 0 <= i < |s| ==> Breaks(s[i..]) == 0
  }

  /** What starts a word in the escaped text starts it in the text. */
  lemma {:induction false} EscapeWord(s: string, word: string)
    requires StartsWith(EscapeScript(s), word) && forall i :: 0 <= i < |word| ==> word[i] != '<' && word[i] != '\\'
    ensures StartsWith(s, word)
    decreases |s|
  {
    if word != "" && s != "" {
      EscapeStep(s);
      var out := EscapeScript(s);
      assert Lower(out[0]) == word[0];
      assert Breaks(s) == 0;
      assert out[1..] == EscapeScript(s[1..]);
      forall i | 0 <= i < |word[1..]|
        ensures Lower(out[1..][i]) == word[1..][i]
      {
        assert Lower(out[i + 1]) == word[i + 1];
      }
      EscapeWord(s[1..], word[1..]);
      forall i | 0 <= i < |word|
        ensures Lower(s[i]) == word[i]
      {
        if i > 0 {
          assert Lower(s[1..][i - 1]) == word[1..][i - 1];
        }
      }
    }
  }

  lemma {:induction false} HarmlessCons(c: char, s: string)
    requires Harmless(s) && Breaks([c] + s) == 0
    ensures Harmless([c] + s)
  {
    var t := [c] + s;
    forall i | 0 <= i < |t|
      ensures Breaks(t[i..]) == 0
    {
      if i == 0 {
        assert t[0..] == t;
      } else {
        assert t[i..] == s[i - 1..];
      }
    }
  }

  lemma {:induction false} LessHarmless(rest: string)
    requires Harmless(rest)
    ensures Harmless(LESS + rest)
  {
    HarmlessCons('c', rest);
    HarmlessCons('3', ['c'] + rest);
    HarmlessCons('0', ['3'] + (['c'] + rest));
    HarmlessCons('0', ['0'] + (['3'] + (['c'] + rest)));
    HarmlessCons('u', ['0'] + (['0'] + (['3'] + (['c'] + rest))));
    HarmlessCons('\\', ['u'] + (['0'] + (['0'] + (['3'] + (['c'] + rest)))));
    assert LESS + rest == ['\\'] + (['u'] + (['0'] + (['0'] + (['3'] + (['c'] + rest)))));
  }

  lemma {:induction false} StillHarmless(s: string)
    requires s != "" && Breaks(s) == 0
    ensures Breaks([s[0]] + EscapeScript(s[1..])) == 0
  {
    if s[0] == '<' {
      var out := [s[0]] + EscapeScript(s[1..]);
      assert out[1..] == EscapeScript(s[1..]);
      StillPlain(s, "script");
      StillPlain(s, "/script");
      StillPlain(s, "!--");
    }
  }

  lemma {:induction false} EscapedHarmless(s: string)
    ensures Harmless(EscapeScript(s))
    decreases |s|
  {
    if s != "" {
      EscapedHarmless(s[1..]);
      EscapeStep(s);
      if Breaks(s) > 0 {
        LessHarmless(EscapeScript(s[1..]));
      } else {
        StillHarmless(s);
        HarmlessCons(s[0], EscapeScript(s[1..]));
      }
    }
  }

  /** Nowhere in the escaped text is there a script tag, open or close, or a comment opener, in any letter case. */
  lemma {:induction false} NothingBreaks(s: string, i: nat)
    ensures !BreaksOut(EscapeScript(s), i)
  {
    EscapedHarmless(s);
    if i < |EscapeScript(s)| {
      BreaksExactly(EscapeScript(s), i);
    }
  }

  lemma {:induction false} StillPlain(s: string, word: string)
    requires s != "" && !StartsWith(s[1..], word) && forall i :: 0 <= i < |word| ==> word[i] != '<' && word[i] != '\\'
    ensures !StartsWith(EscapeScript(s[1..]), word)
  {
    if StartsWith(EscapeScript(s[1..]), word) {
      EscapeWord(s[1..], word);
    }
  }

  lemma {:induction false} HarmlessOnLine(s: string, more: string, i: nat)
    requires Harmless(s) && i <= |s| + 1 && more != "" && more[0] == '\n'
    ensures Breaks(("\n" + s + more)[i..]) == 0
  {
    var all := "\n" + s + more;
    if 0 < i <= |s| {
      assert all[i..] == s[i - 1..] + more;
      BreaksOnLine(s[i - 1..], more);
    } else {
      assert all[i..] != "" && all[i..][0] == '\n';
    }
  }

  const END_TAG := "</script>"

  lemma {:induction false} StandsItself(s: string, i: nat, word: string)
    requires i + |word| <= |s| && s[i..i + |word|] == word
    ensures StandsAt(s, i, word)
  {
    forall j | 0 <= j < |word|
      ensures Matches(s[i + j], word[j])
    {
      assert s[i..i + |word|][j] == s[i + j];
    }
  }

  lemma {:induction false} Ending(a: string, b: string, c: string)
    ensures (a + (b + c))[|a| + |b|..] == c && |a + (b + c)| == |a| + |b| + |c|
  {}

  /** In its element, the first sequence that the parser reacts to is the element's own end tag. */
  lemma {:induction false} ElementEnds(s: string)
    ensures var body, all := "\n" + EscapeScript(s), "\n" + EscapeScript(s) + "\n</script>";
            (forall i: nat :: i <= |body| ==> !BreaksOut(all, i)) && StandsAt(all, |body| + 1, "</script")
  {
    var body, more := "\n" + EscapeScript(s), "\n" + END_TAG;
    var all := body + more;
    assert more == "\n</script>";
    EscapedHarmless(s);
    forall i: nat | i <= |body|
      ensures !BreaksOut(all, i)
    {
      HarmlessOnLine(EscapeScript(s), more, i);
      BreaksExactly(all, i);
    }
    Ending(body, "\n", END_TAG);
    assert all[|body| + 1..|body| + 9] == all[|body| + 1..][..8] == END_TAG[..8] == "</script";
    StandsItself(all, |body| + 1, "</script");
  }

  lemma {:induction false} BreaksOnLine(s: string, more: string)
    requires s != "" && more != "" && more[0] == '\n' && Breaks(s) == 0
    ensures Breaks(s + more) == 0
  {
    WordOnLine(s, more, "script");
    WordOnLine(s, more, "/script");
    WordOnLine(s, more, "!--");
  }

  lemma {:induction false} WordOnLine(s: string, more: string, word: string)
    requires s != "" && more != "" && more[0] == '\n' && '\n' !in word
    ensures StartsWith((s + more)[1..], word) ==> StartsWith(s[1..], word)
  {
    var all := (s + more)[1..];
    if StartsWith(all, word) {
      assert all[|s| - 1] == '\n';
      assert forall i :: 0 <= i < |word| ==> Lower(all[i]) == word[i] && word[i] in word;
      assert forall i :: 0 <= i < |word| && i < |s| - 1 ==> all[i] == s[1..][i];
    }
  }

  // ---------------------------------------------------------------------
  // Nothing is lost
  // ---------------------------------------------------------------------

  /** A quote, a code unit inside a string, or a character outside of one. */
  datatype Token = Quote | Unit(u: int) | Outside(c: char)

  const BLANKS_AND_PUNCTUATION := " \t\n\r{}[]:,"

  /** The characters of numbers and of names. */
  predicate Letter(c: char) {
    '0' <= c <= '9' || 'a' <= c <= 'z' || 'A' <= c <= 'Z' || c == '+' || c == '-' || c == '.'
  }

  function HexValue(c: char): int {
    if '0' <= c <= '9' then c as int - '0' as int
    else if 'a' <= c <= 'f' then c as int - 'a' as int + 10
    else if 'A' <= c <= 'F' then c as int - 'A' as int + 10
    else -1
  }

  predicate IsHex(s: string) {
    forall i :: 0 <= i < |s| ==> HexValue(s[i]) >= 0
  }

  function Simple(c: char): Option<int> {
    if c in "\"\\/" then Some(c as int)
    else if c == 'b' then Some(8) else if c == 'f' then Some(12)
    else if c == 'n' then Some(10) else if c == 'r' then Some(13) else if c == 't' then Some(9)
    else None
  }

  function Then(t: Token, rest: Option<seq<Token>>): Option<seq<Token>> {
    if rest.None? then None else Some([t] + rest.value)
  }

  /** The tokens of JSON text, section 7 of RFC 8259 for strings; None where it is not JSON. */
  function Tokens(s: string, inString: bool): Option<seq<Token>>
    decreases |s|
  {
    if s == "" then if inString then None else Some([])
    else if s[0] == '"' then Then(Quote, Tokens(s[1..], !inString))
    else if !inString then
      if s[0] in BLANKS_AND_PUNCTUATION || Letter(s[0]) then
        Then(Outside(s[0]), Tokens(s[1..], false))
      else None
    else if s[0] == '\\' then
      if |s| >= 6 && s[1] == 'u' && IsHex(s[2..6]) then
        Then(Unit(((HexValue(s[2]) * 16 + HexValue(s[3])) * 16 + HexValue(s[4])) * 16 + HexValue(s[5])),
            Tokens(s[6..], true))
      else if |s| >= 2 && Simple(s[1]).Some? then Then(Unit(Simple(s[1]).value), Tokens(s[2..], true))
      else None
    else if s[0] >= ' ' then Then(Unit(s[0] as int), Tokens(s[1..], true))
    else None
  }

  lemma {:induction false} LessToken(rest: string)
    ensures Tokens(LESS + rest, true) == Then(Unit('<' as int), Tokens(rest, true))
  {
    var s := LESS + rest;
    assert s[2..6] == "003c" && s[6..] == rest;
  }

  /** JSON text and the escaped text have the same tokens. */
  lemma {:induction false} SameTokens(s: string, inString: bool)
    requires Tokens(s, inString).Some?
    ensures Tokens(EscapeScript(s), inString) == Tokens(s, inString)
    decreases |s|
  {
    if s != "" {
      if s[0] == '<' {
        assert inString;
        SameTokens(s[1..], true);
        EscapeStep(s);
        var rest := EscapeScript(s[1..]);
        if Breaks(s) > 0 {
          LessToken(rest);
        } else {
          assert ([s[0]] + rest)[1..] == rest;
        }
      } else {
        var k := if inString && s[0] == '\\' then if s[1] == 'u' && |s| >= 6 && IsHex(s[2..6]) then 6 else 2 else 1;
        var next := if s[0] == '"' then !inString else inString;
        SameHead(s, inString, k);
        SameTokens(s[k..], next);
      }
    }
  }

  lemma {:induction false} SameHead(s: string, inString: bool, k: nat)
    requires s != "" && s[0] != '<' && Tokens(s, inString).Some?
    requires k == if inString && s[0] == '\\' then if s[1] == 'u' && |s| >= 6 && IsHex(s[2..6]) then 6 else 2 else 1
    ensures k <= |s| && EscapeScript(s) == s[..k] + EscapeScript(s[k..])
    ensures var next := if s[0] == '"' then !inString else inString;
            exists t :: Tokens(s, inString) == Then(t, Tokens(s[k..], next)) &&
                        Tokens(EscapeScript(s), inString) == Then(t, Tokens(EscapeScript(s[k..]), next))
  {
    hide Letter;
    if k == 6 {
      assert forall i :: 0 <= i < 4 ==> s[2..6][i] == s[i + 2];
    }
    EscapePlain(s[..k], s[k..]);
    assert s == s[..k] + s[k..];
    var out := s[..k] + EscapeScript(s[k..]);
    assert out[k..] == EscapeScript(s[k..]);
    if k == 6 {
      assert out[2..6] == s[2..6];
    }
  }

  // ---------------------------------------------------------------------
  // The value that is read back
  // ---------------------------------------------------------------------

  /** A value of section 3 of RFC 8259; strings are their code units, numbers their text. */
  datatype Json = Word(w: string) | Text(us: seq<int>) | Arr(items: seq<Json>) | Obj(members: seq<Member>)
  datatype Member = Member(key: seq<int>, val: Json)

  /** What was read, and the tokens that follow it. */
  datatype Parsed<T> = Parsed(v: T, rest: seq<Token>)

  const BLANKS := " \t\n\r"

  predicate IsBlank(t: Token) {
    t.Outside? && t.c in BLANKS
  }

  function Skip(ts: seq<Token>): (rest: seq<Token>)
    ensures |rest| <= |ts| && (rest != [] ==> !IsBlank(rest[0]))
  {
    if ts == [] || !IsBlank(ts[0]) then ts else Skip(ts[1..])
  }

  /** The rest after the mark, if that comes next. */
  function Eat(ts: seq<Token>, mark: char): (rest: Option<seq<Token>>)
    ensures rest.Some? ==> |rest.value| < |ts|
  {
    var s := Skip(ts);
    if s != [] && s[0] == Outside(mark) then Some(s[1..]) else None
  }

  /** The code units up to the closing quote. */
  function Units(ts: seq<Token>): (r: Option<Parsed<seq<int>>>)
    ensures r.Some? ==> |r.value.rest| < |ts|
  {
    if ts == [] || ts[0].Outside? then None
    else if ts[0].Quote? then Some(Parsed([], ts[1..]))
    else
      match Units(ts[1..])
      case None => None
      case Some(p) => Some(Parsed([ts[0].u] + p.v, p.rest))
  }

  function Letters(ts: seq<Token>): (p: Parsed<string>)
    ensures |p.rest| == |ts| - |p.v|
  {
    if ts == [] || !ts[0].Outside? || !Letter(ts[0].c) then Parsed("", ts)
    else
      var p := Letters(ts[1..]);
      Parsed([ts[0].c] + p.v, p.rest)
  }

  /** How many digits s starts with. */
  function Digits(s: string): (n: nat)
    ensures n <= |s|
  {
    if s != "" && '0' <= s[0] <= '9' then 1 + Digits(s[1..]) else 0
  }

  predicate IsExponent(s: string) {
    s == "" || (s[0] in "eE" &&
      var t := if |s| > 1 && s[1] in "+-" then s[2..] else s[1..];
      0 < Digits(t) == |t|)
  }

  predicate IsFraction(s: string) {
    if s != "" && s[0] == '.' then Digits(s[1..]) > 0 && IsExponent(s[1..][Digits(s[1..])..]) else IsExponent(s)
  }

  /** Section 6 of RFC 8259. */
  predicate IsNumber(s: string) {
    var t := if s != "" && s[0] == '-' then s[1..] else s;
    0 < Digits(t) && (t[0] == '0' ==> Digits(t) == 1) && IsFraction(t[Digits(t)..])
  }

  /** The words that are values; the last three are what Python writes for its special numbers. */
  predicate IsWord(s: string) {
    s == "null" || s == "true" || s == "false" || IsNumber(s) || s == "NaN" || s == "Infinity" || s == "-Infinity"
  }

  function Value(ts: seq<Token>): (r: Option<Parsed<Json>>)
    ensures r.Some? ==> |r.value.rest| < |ts|
    decreases |ts|, 0
  {
    var s := Skip(ts);
    if s == [] || s[0].Unit? then None
    else if s[0].Quote? then
      match Units(s[1..])
      case None => None
      case Some(p) => Some(Parsed(Text(p.v), p.rest))
    else if s[0].c == '[' then
      match Eat(s[1..], ']')
      case Some(rest) => Some(Parsed(Arr([]), rest))
      case None => (match Items(s[1..]) case None => None case Some(p) => Some(Parsed(Arr(p.v), p.rest)))
    else if s[0].c == '{' then
      match Eat(s[1..], '}')
      case Some(rest) => Some(Parsed(Obj([]), rest))
      case None => (match Members(s[1..]) case None => None case Some(p) => Some(Parsed(Obj(p.v), p.rest)))
    else
      var p := Letters(s);
      if p.v != "" && IsWord(p.v) then Some(Parsed(Word(p.v), p.rest)) else None
  }

  function Items(ts: seq<Token>): (r: Option<Parsed<seq<Json>>>)
    ensures r.Some? ==> |r.value.rest| < |ts|
    decreases |ts|, 1
  {
    match Value(ts)
    case None => None
    case Some(p) =>
      match Eat(p.rest, ']')
      case Some(rest) => Some(Parsed([p.v], rest))
      case None =>
        match Eat(p.rest, ',')
        case None => None
        case Some(more) => (match Items(more) case None => None case Some(q) => Some(Parsed([p.v] + q.v, q.rest)))
  }

  function Pair(ts: seq<Token>): (r: Option<Parsed<Member>>)
    ensures r.Some? ==> |r.value.rest| < |ts|
    decreases |ts|, 1
  {
    var s := Skip(ts);
    if s == [] || !s[0].Quote? then None
    else
      match Units(s[1..])
      case None => None
      case Some(key) =>
        match Eat(key.rest, ':')
        case None => None
        case Some(after) =>
          match Value(after)
          case None => None
          case Some(p) => Some(Parsed(Member(key.v, p.v), p.rest))
  }

  function Members(ts: seq<Token>): (r: Option<Parsed<seq<Member>>>)
    ensures r.Some? ==> |r.value.rest| < |ts|
    decreases |ts|, 2
  {
    match Pair(ts)
    case None => None
    case Some(p) =>
      match Eat(p.rest, '}')
      case Some(rest) => Some(Parsed([p.v], rest))
      case None =>
        match Eat(p.rest, ',')
        case None => None
        case Some(more) => (match Members(more) case None => None case Some(q) => Some(Parsed([p.v] + q.v, q.rest)))
  }

  /** The value of a whole text; None where it is not JSON. */
  function ParseJson(s: string): Option<Json> {
    match Tokens(s, false)
    case None => None
    case Some(ts) =>
      match Value(ts)
      case None => None
      case Some(p) => if Skip(p.rest) == [] then Some(p.v) else None
  }

  /** The escaped text parses to the value that the text parses to. */
  lemma {:induction false} SameValue(s: string)
    requires ParseJson(s).Some?
    ensures ParseJson(EscapeScript(s)) == ParseJson(s)
  {
    SameTokens(s, false);
  }
}
