/**
 * The JSON text that a page embeds: as the serializer writes it, indented by two and in ASCII,
 * and what is read back from it once it is escaped.
 */
module Embedding {
  import opened Trees
  import opened ScriptEscape

  // ---------------------------------------------------------------------
  // Writing
  // ---------------------------------------------------------------------

  const HEX_DIGITS := "0123456789abcdef"

  function Hex(d: int): char
    requires 0 <= d < 16
  {
    HEX_DIGITS[d]
  }

  predicate IsUnit(u: int) {
    0 <= u < 0x1_0000
  }

  function WriteUnit(u: int): string
    requires IsUnit(u)
  {
    if u == '"' as int then "\\\""
    else if u == '\\' as int then "\\\\"
    else if u == 10 then "\\n" else if u == 13 then "\\r" else if u == 9 then "\\t"
    else if u == 12 then "\\f" else if u == 8 then "\\b"
    else if 32 <= u < 127 then [u as char]
    else "\\u" + [Hex(u / 4096), Hex(u / 256 % 16), Hex(u / 16 % 16), Hex(u % 16)]
  }

  predicate AreUnits(us: seq<int>) {
    forall i :: 0 <= i < |us| ==> IsUnit(us[i])
  }

  function WriteUnits(us: seq<int>): string
    requires AreUnits(us)
  {
    if us == [] then "" else WriteUnit(us[0]) + WriteUnits(us[1..])
  }

  function WriteText(us: seq<int>): string
    requires AreUnits(us)
  {
    "\"" + WriteUnits(us) + "\""
  }

  /** A value that can be written: words are words of JSON, and strings are code units. */
  predicate Writable(v: Json) {
    match v
    case Word(w) => IsWord(w)
    case Text(us) => AreUnits(us)
    case Arr(items) => forall i :: 0 <= i < |items| ==> Writable(items[i])
    case Obj(members) => forall i :: 0 <= i < |members| ==> AreUnits(members[i].key) && Writable(members[i].val)
  }

  function Spaces(n: nat): string {
    if n == 0 then "" else " " + Spaces(n - 1)
  }

  function NewLine(indent: nat): string {
    "\n" + Spaces(indent)
  }

  /** An array or an object has each item on a line of its own, unless it is empty. */
  function Write(v: Json, indent: nat): string
    requires Writable(v)
    decreases v, 0
  {
    match v
    case Word(w) => w
    case Text(us) => WriteText(us)
    case Arr(items) => if items == [] then "[]" else "[" + WriteItems(items, indent + 2) + NewLine(indent) + "]"
    case Obj(members) => if members == [] then "{}" else "{" + WriteMembers(members, indent + 2) + NewLine(indent) + "}"
  }

  function WriteItems(items: seq<Json>, indent: nat): string
    requires items != [] && forall i :: 0 <= i < |items| ==> Writable(items[i])
    decreases items, 1
  {
    NewLine(indent) + Write(items[0], indent) + if |items| == 1 then "" else "," + WriteItems(items[1..], indent)
  }

  function WriteMember(m: Member, indent: nat): string
    requires AreUnits(m.key) && Writable(m.val)
    decreases m, 1
  {
    NewLine(indent) + WriteText(m.key) + ": " + Write(m.val, indent)
  }

  function WriteMembers(members: seq<Member>, indent: nat): string
    requires members != [] && forall i :: 0 <= i < |members| ==> AreUnits(members[i].key) && Writable(members[i].val)
    decreases members, 2
  {
    WriteMember(members[0], indent) + if |members| == 1 then "" else "," + WriteMembers(members[1..], indent)
  }

  // ---------------------------------------------------------------------
  // Reading it back
  // ---------------------------------------------------------------------

  lemma {:induction false} HexBack(d: int)
    requires 0 <= d < 16
    ensures HexValue(Hex(d)) == d
  {}

  lemma {:induction false} HexToken(a: int, b: int, c: int, d: int, rest: string)
    requires 0 <= a < 16 && 0 <= b < 16 && 0 <= c < 16 && 0 <= d < 16
    ensures Tokens("\\u" + [Hex(a), Hex(b), Hex(c), Hex(d)] + rest, true) ==
            Then(Unit(((a * 16 + b) * 16 + c) * 16 + d), Tokens(rest, true))
  {
    hide HexValue, Hex;
    HexBack(a);
    HexBack(b);
    HexBack(c);
    HexBack(d);
    var s := "\\u" + [Hex(a), Hex(b), Hex(c), Hex(d)] + rest;
    assert s[2..6] == [Hex(a), Hex(b), Hex(c), Hex(d)] && s[6..] == rest;
  }

  lemma {:induction false} HexDigits(u: int)
    requires IsUnit(u)
    ensures ((u / 4096 * 16 + u / 256 % 16) * 16 + u / 16 % 16) * 16 + u % 16 == u && u / 4096 < 16
  {
    assert u / 256 == u / 4096 * 16 + u / 256 % 16;
    assert u / 16 == u / 256 * 16 + u / 16 % 16;
  }

  lemma {:induction false} UnitToken(u: int, rest: string)
    requires IsUnit(u)
    ensures Tokens(WriteUnit(u) + rest, true) == Then(Unit(u), Tokens(rest, true))
  {
    hide Hex, HexValue, IsHex;
    var w := WriteUnit(u);
    assert (w + rest)[|w|..] == rest;
    if |w| == 6 {
      HexDigits(u);
      HexToken(u / 4096, u / 256 % 16, u / 16 % 16, u % 16, rest);
    } else if |w| == 2 {
      assert w[1] != 'u';
    }
  }

  lemma {:induction false} UnitsBack(us: seq<int>, rest: string)
    requires AreUnits(us) && Tokens(rest, false).Some?
    ensures var ts := Tokens(WriteUnits(us) + ("\"" + rest), true);
            ts.Some? && Units(ts.value) == Some(Parsed(us, Tokens(rest, false).value))
  {
    if us == [] {
      assert WriteUnits(us) + ("\"" + rest) == "\"" + rest && ("\"" + rest)[1..] == rest;
    } else {
      hide Tokens;
      UnitsBack(us[1..], rest);
      Assoc(WriteUnit(us[0]), WriteUnits(us[1..]), "\"" + rest);
      UnitToken(us[0], WriteUnits(us[1..]) + ("\"" + rest));
      assert us == [us[0]] + us[1..];
    }
  }

  predicate AllLetters(w: string) {
    forall i :: 0 <= i < |w| ==> Letter(w[i])
  }

  lemma {:induction false} DigitsAreLetters(s: string)
    ensures AllLetters(s[..Digits(s)])
  {
    if s != "" && '0' <= s[0] <= '9' {
      DigitsAreLetters(s[1..]);
      assert s[..Digits(s)] == [s[0]] + s[1..][..Digits(s[1..])];
    }
  }

  lemma {:induction false} LettersJoin(a: string, b: string)
    requires AllLetters(a) && AllLetters(b)
    ensures AllLetters(a + b)
  {}

  lemma {:induction false} ExponentLetters(s: string)
    requires IsExponent(s)
    ensures AllLetters(s)
  {
    if s != "" {
      var k := if |s| > 1 && s[1] in "+-" then 2 else 1;
      var t := s[k..];
      DigitsAreLetters(t);
      assert t[..Digits(t)] == t;
      LettersJoin(s[..k], t);
      assert s == s[..k] + t;
    }
  }

  lemma {:induction false} FractionLetters(s: string)
    requires IsFraction(s)
    ensures AllLetters(s)
  {
    hide IsExponent;
    if s != "" && s[0] == '.' {
      var t := s[1..];
      var n := Digits(t);
      DigitsAreLetters(t);
      ExponentLetters(t[n..]);
      LettersJoin(t[..n], t[n..]);
      assert t == t[..n] + t[n..];
      LettersJoin(".", t);
      assert s == "." + t;
    } else {
      ExponentLetters(s);
    }
  }

  lemma {:induction false} NumberLetters(s: string)
    requires IsNumber(s)
    ensures s != "" && AllLetters(s)
  {
    hide IsFraction;
    var k := if s != "" && s[0] == '-' then 1 else 0;
    var t := s[k..];
    var n := Digits(t);
    DigitsAreLetters(t);
    FractionLetters(t[n..]);
    LettersJoin(t[..n], t[n..]);
    assert t == t[..n] + t[n..];
    LettersJoin(s[..k], t);
    assert s == s[..k] + t;
  }

  lemma {:induction false} WordLetters(w: string)
    requires IsWord(w)
    ensures w != "" && AllLetters(w)
  {
    hide IsNumber;
    if IsNumber(w) {
      NumberLetters(w);
    }
  }

  /** JSON text before which a word ends. */
  predicate After(s: string): (after: bool)
    ensures after ==> Tokens(s, false).Some?
  {
    Tokens(s, false).Some? &&
    var ts := Tokens(s, false).value;
    ts == [] || (ts[0].Outside? && !Letter(ts[0].c))
  }

  lemma {:induction false} OneMore(c: char, s: string)
    requires c != '"'
    requires c in BLANKS_AND_PUNCTUATION || Letter(c)
    ensures Tokens([c] + s, false) == Then(Outside(c), Tokens(s, false))
  {
    assert ([c] + s)[1..] == s;
  }

  lemma {:induction false} LettersBack(w: string, rest: string)
    requires AllLetters(w) && After(rest)
    ensures var ts := Tokens(w + rest, false);
            ts.Some? && Letters(ts.value) == Parsed(w, Tokens(rest, false).value)
    ensures w != "" ==> Tokens(w + rest, false).value != [] && Tokens(w + rest, false).value[0] == Outside(w[0])
  {
    hide Tokens, Letter;
    if w == "" {
      assert w + rest == rest;
    } else {
      LettersBack(w[1..], rest);
      assert w + rest == [w[0]] + (w[1..] + rest) && w == [w[0]] + w[1..];
      OneLetter(w[0], w[1..] + rest);
    }
  }

  lemma {:induction false} OneLetter(c: char, s: string)
    requires Letter(c)
    ensures Tokens([c] + s, false) == Then(Outside(c), Tokens(s, false))
  {
    OneMore(c, s);
  }

  lemma {:induction false} SpacesBack(n: nat, rest: string)
    requires Tokens(rest, false).Some?
    ensures Tokens(Spaces(n) + rest, false).Some?
    ensures Skip(Tokens(Spaces(n) + rest, false).value) == Skip(Tokens(rest, false).value)
  {
    hide Tokens;
    if n == 0 {
      assert Spaces(n) + rest == rest;
    } else {
      SpacesBack(n - 1, rest);
      assert Spaces(n) + rest == [' '] + (Spaces(n - 1) + rest);
      OneMore(' ', Spaces(n - 1) + rest);
    }
  }

  lemma {:induction false} LineBack(indent: nat, rest: string)
    requires Tokens(rest, false).Some?
    ensures After(NewLine(indent) + rest)
    ensures Skip(Tokens(NewLine(indent) + rest, false).value) == Skip(Tokens(rest, false).value)
  {
    SpacesBack(indent, rest);
    assert NewLine(indent) + rest == ['\n'] + (Spaces(indent) + rest);
    OneMore('\n', Spaces(indent) + rest);
  }

  lemma {:induction false} WordBack(w: string, rest: string)
    requires IsWord(w) && After(rest)
    ensures var ts := Tokens(w + rest, false);
            ts.Some? && Value(ts.value) == Some(Parsed(Word(w), Tokens(rest, false).value))
  {
    hide Tokens, IsWord;
    WordLetters(w);
    LettersBack(w, rest);
    assert Letter(w[0]);
  }

  lemma {:induction false} TextBack(us: seq<int>, rest: string)
    requires AreUnits(us) && Tokens(rest, false).Some?
    ensures var ts := Tokens(WriteText(us) + rest, false);
            && ts.Some? && ts.value != [] && ts.value[0] == Quote
            && Units(ts.value[1..]) == Some(Parsed(us, Tokens(rest, false).value))
  {
    UnitsBack(us, rest);
    var more := WriteUnits(us) + ("\"" + rest);
    assert WriteText(us) + rest == ['"'] + more;
    assert (['"'] + more)[1..] == more;
  }

  /** The closing bracket, on a line of its own. */
  lemma {:induction false} CloseBack(indent: nat, mark: char, rest: string)
    requires After(rest) && mark in "]}"
    ensures var end := NewLine(indent) + [mark] + rest;
            After(end) && Eat(Tokens(end, false).value, mark) == Some(Tokens(rest, false).value)
  {
    OneMore(mark, rest);
    LineBack(indent, [mark] + rest);
    Assoc(NewLine(indent), [mark], rest);
  }

  lemma {:induction false} NoMark(ts: seq<Token>, mark: char)
    requires Value(ts).Some? && mark in "]}"
    ensures Eat(ts, mark).None?
  {
    hide IsWord;
  }

  lemma {:induction false} EmptyBack(open: char, mark: char, rest: string)
    requires After(rest) && [open, mark] in {"[]", "{}"}
    ensures var ts := Tokens([open, mark] + rest, false);
            && ts.Some? && ts.value != [] && ts.value[0] == Outside(open)
            && Eat(ts.value[1..], mark) == Some(Tokens(rest, false).value)
  {
    hide Tokens;
    assert open == [open, mark][0] && mark == [open, mark][1];
    OneMore(mark, rest);
    OneMore(open, [mark] + rest);
    assert [open, mark] + rest == [open] + ([mark] + rest);
  }

  lemma {:induction false} TextValue(ts: seq<Token>, us: seq<int>, rest: seq<Token>)
    requires ts != [] && ts[0] == Quote && Units(ts[1..]) == Some(Parsed(us, rest))
    ensures Value(ts) == Some(Parsed(Text(us), rest))
  {
    hide IsWord, Units;
  }

  /** A bracketed value, from what stands between its brackets. */
  lemma {:induction false} Bracketed(ts: seq<Token>, items: seq<Json>, members: seq<Member>, rest: seq<Token>)
    requires ts != [] && ts[0].Outside?
    ensures ts[0].c == '[' && Eat(ts[1..], ']') == Some(rest) ==> Value(ts) == Some(Parsed(Arr([]), rest))
    ensures ts[0].c == '{' && Eat(ts[1..], '}') == Some(rest) ==> Value(ts) == Some(Parsed(Obj([]), rest))
    ensures ts[0].c == '[' && Eat(ts[1..], ']').None? && Items(ts[1..]) == Some(Parsed(items, rest)) ==>
              Value(ts) == Some(Parsed(Arr(items), rest))
    ensures ts[0].c == '{' && Eat(ts[1..], '}').None? && Members(ts[1..]) == Some(Parsed(members, rest)) ==>
              Value(ts) == Some(Parsed(Obj(members), rest))
  {
    hide IsWord, Eat, Items, Members;
  }

  lemma {:induction false} Regrouped(open: string, w: string, line: string, mark: string, rest: string)
    ensures open + w + line + mark + rest == open + (w + (line + mark + rest))
  {}

  /** What is written is read back, whatever follows. */
  lemma {:induction false} WriteBack(v: Json, indent: nat, rest: string)
    requires Writable(v) && After(rest)
    ensures var ts := Tokens(Write(v, indent) + rest, false);
            ts.Some? && Value(ts.value) == Some(Parsed(v, Tokens(rest, false).value))
    decreases v, 0
  {
    hide Tokens, IsWord, WriteText, Units, Letter, Letters, After, Eat, Value, WriteItems, WriteMembers, NewLine;
    var rs := Tokens(rest, false).value;
    match v
    case Word(w) => WordBack(w, rest);
    case Text(us) =>
      TextBack(us, rest);
      TextValue(Tokens(WriteText(us) + rest, false).value, us, rs);
    case Arr(items) =>
      if items == [] {
        EmptyBack('[', ']', rest);
        Bracketed(Tokens("[]" + rest, false).value, [], [], rs);
      } else {
        var end := NewLine(indent) + "]" + rest;
        var all := "[" + (WriteItems(items, indent + 2) + end);
        CloseBack(indent, ']', rest);
        ItemsBack(items, indent + 2, end, rs);
        OneMore('[', WriteItems(items, indent + 2) + end);
        Regrouped("[", WriteItems(items, indent + 2), NewLine(indent), "]", rest);
        Bracketed(Tokens(all, false).value, items, [], rs);
      }
    case Obj(members) =>
      if members == [] {
        EmptyBack('{', '}', rest);
        Bracketed(Tokens("{}" + rest, false).value, [], [], rs);
      } else {
        var end := NewLine(indent) + "}" + rest;
        var all := "{" + (WriteMembers(members, indent + 2) + end);
        CloseBack(indent, '}', rest);
        MembersBack(members, indent + 2, end, rs);
        OneMore('{', WriteMembers(members, indent + 2) + end);
        Regrouped("{", WriteMembers(members, indent + 2), NewLine(indent), "}", rest);
        Bracketed(Tokens(all, false).value, [], members, rs);
      }
  }

  /** A comma, and what follows it. */
  lemma {:induction false} CommaBack(more: string)
    requires Tokens(more, false).Some?
    ensures After("," + more)
    ensures Eat(Tokens("," + more, false).value, ',') == Some(Tokens(more, false).value)
    ensures Eat(Tokens("," + more, false).value, ']').None? && Eat(Tokens("," + more, false).value, '}').None?
  {
    OneMore(',', more);
  }

  lemma {:induction false} ItemsBack(items: seq<Json>, indent: nat, end: string, rest: seq<Token>)
    requires items != [] && forall i :: 0 <= i < |items| ==> Writable(items[i])
    requires After(end) && Eat(Tokens(end, false).value, ']') == Some(rest)
    ensures var ts := Tokens(WriteItems(items, indent) + end, false);
            ts.Some? && Items(ts.value) == Some(Parsed(items, rest)) && Eat(ts.value, ']').None?
    decreases items, 1
  {
    hide Tokens, IsWord, Letter, Letters, After, Eat, Value, Write, NewLine;
    var item := Write(items[0], indent);
    var more := end;
    if |items| == 1 {
      assert WriteItems(items, indent) + end == NewLine(indent) + (item + more);
      assert items == [items[0]];
    } else {
      ItemsBack(items[1..], indent, end, rest);
      CommaBack(WriteItems(items[1..], indent) + end);
      more := "," + (WriteItems(items[1..], indent) + end);
      assert WriteItems(items, indent) + end == NewLine(indent) + (item + more);
      assert items == [items[0]] + items[1..];
    }
    WriteBack(items[0], indent, more);
    LineBack(indent, item + more);
    ValueSkips(Tokens(NewLine(indent) + (item + more), false).value, Tokens(item + more, false).value);
    NoMark(Tokens(NewLine(indent) + (item + more), false).value, ']');
  }

  lemma {:induction false} ValueSkips(ts: seq<Token>, us: seq<Token>)
    requires Skip(ts) == Skip(us)
    ensures Value(ts) == Value(us)
  {
    hide IsWord;
  }

  lemma {:induction false} MemberBack(m: Member, indent: nat, rest: string)
    requires AreUnits(m.key) && Writable(m.val) && After(rest)
    ensures var ts := Tokens(WriteMember(m, indent) + rest, false);
            && ts.Some? && Pair(ts.value) == Some(Parsed(m, Tokens(rest, false).value))
            && Eat(ts.value, '}').None?
    decreases m, 1
  {
    hide Tokens, IsWord, Letter, Letters, Value, Write, NewLine, WriteText, Units;
    var val := Write(m.val, indent);
    WriteBack(m.val, indent, rest);
    OneMore(' ', val + rest);
    OneMore(':', " " + (val + rest));
    var tail := ":" + (" " + (val + rest));
    TextBack(m.key, tail);
    LineBack(indent, WriteText(m.key) + tail);
    assert WriteMember(m, indent) + rest == NewLine(indent) + (WriteText(m.key) + tail);
    ValueSkips(Tokens(" " + (val + rest), false).value, Tokens(val + rest, false).value);
  }

  lemma {:induction false} MembersBack(members: seq<Member>, indent: nat, end: string, rest: seq<Token>)
    requires members != []
    requires forall i :: 0 <= i < |members| ==> AreUnits(members[i].key) && Writable(members[i].val)
    requires After(end) && Eat(Tokens(end, false).value, '}') == Some(rest)
    ensures var ts := Tokens(WriteMembers(members, indent) + end, false);
            ts.Some? && Members(ts.value) == Some(Parsed(members, rest)) && Eat(ts.value, '}').None?
    decreases members, 2
  {
    hide Tokens, IsWord, Letter, Letters, After, Eat, Value, Write, NewLine, WriteMember, Pair;
    var more := end;
    if |members| == 1 {
      assert WriteMembers(members, indent) + end == WriteMember(members[0], indent) + more;
      assert members == [members[0]];
    } else {
      MembersBack(members[1..], indent, end, rest);
      CommaBack(WriteMembers(members[1..], indent) + end);
      more := "," + (WriteMembers(members[1..], indent) + end);
      assert WriteMembers(members, indent) + end == WriteMember(members[0], indent) + more;
      assert members == [members[0]] + members[1..];
    }
    MemberBack(members[0], indent, more);
  }

  /** The page reads back the value that was embedded. */
  lemma {:induction false} EmbeddedReads(v: Json)
    requires Writable(v)
    ensures ParseJson(EscapeScript(Write(v, 0))) == Some(v)
  {
    WriteBack(v, 0, "");
    NothingMore(Write(v, 0));
    SameValue(Write(v, 0));
  }
}
