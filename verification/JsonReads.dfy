/** The decoder reads JSON: every text of the grammar, with the value that it stands for. */
module JsonReads {
  import opened Tasks
  import opened JsonText
  import opened JsonModel
  import opened JsonGrammar

  // ---------- strings ----------

  /** A backslash and a letter are accepted just where they stand for a byte, and are that byte. */
  lemma ShortExactly(c: char)
    ensures Unescaped(c).Some? <==> ShortMeans(c).Some?
    ensures Unescaped(c).Some? ==> Unescaped(c).value as int == ShortMeans(c).value
  {
  }

  lemma UnitRead(data: string, i: nat, hex: string)
    requires Stands(data, i, hex) && IsUnit(hex)
    ensures Hex4(data, i) == Some(UnitMeans(hex))
  {
    StandsAt(data, i, hex, 0);
    StandsAt(data, i, hex, 1);
    StandsAt(data, i, hex, 2);
    StandsAt(data, i, hex, 3);
    assert HexLetter(hex[0]) && HexLetter(hex[1]) && HexLetter(hex[2]) && HexLetter(hex[3]);
  }

  /** A character as it is written, read. */
  lemma CharRead(data: string, i: nat, ch: Char)
    requires CharOk(ch) && Stands(data, i, CharText(ch))
    ensures Unquote(data, i) == Prepend(Denoted(ch), Unquote(data, i + |CharText(ch)|))
  {
    hide Stands, Hex4, Utf8, UnitMeans;
    StandsAt(data, i, CharText(ch), 0);
    match ch
    case Itself(c) =>
    case Short(c) =>
      StandsAt(data, i, CharText(ch), 1);
      ShortExactly(c);
    case Unit(hex) =>
      StandsAt(data, i, CharText(ch), 1);
      StandsSplit(data, i, "\\u", hex);
      UnitRead(data, i + 2, hex);
      assert UnicodeEscape(data, i) == Some((Denoted(ch), i + 6));
    case Pair(high, low) =>
      StandsAt(data, i, CharText(ch), 1);
      PairRead(data, i, high, low);
  }

  lemma PairRead(data: string, i: nat, high: string, low: string)
    requires CharOk(Pair(high, low)) && Stands(data, i, CharText(Pair(high, low)))
    ensures UnicodeEscape(data, i) == Some((Denoted(Pair(high, low)), i + 12))
  {
    hide Stands, Hex4, Utf8, UnitMeans;
    assert CharText(Pair(high, low)) == "\\u" + (high + ("\\u" + low));
    StandsSplit(data, i, "\\u", high + ("\\u" + low));
    StandsSplit(data, i + 2, high, "\\u" + low);
    StandsSplit(data, i + 6, "\\u", low);
    StandsAt(data, i + 6, "\\u", 0);
    StandsAt(data, i + 6, "\\u", 1);
    UnitRead(data, i + 2, high);
    UnitRead(data, i + 8, low);
    var h, l := UnitMeans(high), UnitMeans(low);
    assert h % 1024 == h - 0xD800 && l % 1024 == l - 0xDC00;
  }

  lemma {:induction false} CharsRead(data: string, i: nat, chars: seq<Char>)
    requires CharsOk(chars) && Stands(data, i, CharsText(chars) + "\"")
    ensures Unquote(data, i) == Some((Bytes(chars), i + |CharsText(chars)| + 1))
    decreases |chars|
  {
    hide Unquote, Stands, CharText, Denoted;
    if chars == [] {
      assert CharsText(chars) + "\"" == "\"";
      UnquoteEnd(data, i);
    } else {
      var t := CharText(chars[0]);
      assert CharsText(chars) + "\"" == t + (CharsText(chars[1..]) + "\"");
      StandsSplit(data, i, t, CharsText(chars[1..]) + "\"");
      assert chars[0] in chars && forall ch :: ch in chars[1..] ==> ch in chars;
      CharRead(data, i, chars[0]);
      CharsRead(data, i + |t|, chars[1..]);
    }
  }

  // ---------- tokens ----------

  /** A character that can stand behind a value. */
  ghost predicate Ends(c: char) { !Digit(c) && !Beyond(c) }

  /** Single characters and words. */
  lemma WordRead(data: string, i: nat, t: string)
    requires Stands(data, i, t)
    ensures t == "null" ==> Lex(data, i) == (NullTok, i + 4)
    ensures t == "true" ==> Lex(data, i) == (BoolTok(true), i + 4)
    ensures t == "false" ==> Lex(data, i) == (BoolTok(false), i + 5)
    ensures t == "[" ==> Lex(data, i) == (ArrBegin, i + 1)
    ensures t == "]" ==> Lex(data, i) == (ArrEnd, i + 1)
    ensures t == "{" ==> Lex(data, i) == (ObjBegin, i + 1)
    ensures t == "}" ==> Lex(data, i) == (ObjEnd, i + 1)
    ensures t == "," ==> Lex(data, i) == (Comma, i + 1)
    ensures t == ":" ==> Lex(data, i) == (Colon, i + 1)
  {
    if t != "" {
      StandsAt(data, i, t, 0);
    }
  }

  /** White space before a token does not matter. */
  lemma {:induction false} WhiteRead(data: string, i: nat, s: string)
    requires White(s) && Stands(data, i, s) && i <= |data|
    ensures i + |s| <= |data| && Lex(data, i) == Lex(data, i + |s|)
    decreases |s|
  {
    if s != "" {
      StandsAt(data, i, s, 0);
      assert s == [s[0]] + s[1..];
      StandsSplit(data, i, [s[0]], s[1..]);
      WhiteRead(data, i + 1, s[1..]);
      SkipOne(data, i);
    }
  }

  lemma SkipOne(data: string, i: nat)
    requires i < |data| && Space(data[i])
    ensures Lex(data, i) == Lex(data, i + 1)
  {
    hide Unquote, Starts, LexNumber;
  }

  lemma LexString(data: string, i: nat)
    requires i < |data| && At(data, i) == '"' && Unquote(data, i + 1).Some?
    ensures Lex(data, i) == (StrTok(Unquote(data, i + 1).value.0), Unquote(data, i + 1).value.1)
  {
    hide Unquote, Starts, LexNumber;
  }

  lemma LexDecimal(data: string, i: nat)
    requires i < |data| && (data[i] == '-' || Digit(data[i]))
    ensures Lex(data, i) == LexNumber(data, i)
  {
    hide Unquote, Starts, LexNumber;
  }

  lemma StringRead(data: string, i: nat, chars: seq<Char>)
    requires CharsOk(chars) && Stands(data, i, StringText(chars))
    ensures Lex(data, i) == (StrTok(Bytes(chars)), i + |StringText(chars)|)
  {
    hide Unquote, CharsText, Stands, Lex, CharsOk;
    assert StringText(chars) == "\"" + (CharsText(chars) + "\"");
    StandsSplit(data, i, "\"", CharsText(chars) + "\"");
    StandsAt(data, i, "\"", 0);
    CharsRead(data, i + 1, chars);
    LexString(data, i);
  }

  lemma {:induction false} DigitsRead(data: string, i: nat, s: string)
    requires Decimals(s) && Stands(data, i, s) && i <= |data|
    ensures i + |s| <= |data| && Number(data, i, 0) == Number(data, i + |s|, Value10(s))
    decreases |s|
  {
    if s != "" {
      var n := |s| - 1;
      assert s == s[..n] + [s[n]];
      StandsSplit(data, i, s[..n], [s[n]]);
      DigitsRead(data, i, s[..n]);
      StandsAt(data, i + n, [s[n]], 0);
    }
  }

  lemma NumberEnd(data: string, i: nat, n: nat)
    requires i <= |data| && Ends(At(data, i))
    ensures Number(data, i, n) == (n, i)
  {
  }

  lemma StandsEnd(data: string, i: nat, t: string)
    requires Stands(data, i, t)
    ensures i + |t| <= |data|
  {
  }

  lemma NumberRead(data: string, i: nat, minus: bool, digits: string)
    requires var y := SNum(minus, digits); ValueOk(y) && Stands(data, i, ValueText(y)) && Ends(At(data, i + |ValueText(y)|))
    ensures var y := SNum(minus, digits); Lex(data, i) == (NumTok(Meaning(y).n), i + |ValueText(y)|)
  {
    hide Lex, Number, Stands, Value10;
    var j := if minus then i + 1 else i;
    if minus {
      StandsSplit(data, i, "-", digits);
      StandsAt(data, i, "-", 0);
    } else {
      assert "" + digits == digits;
    }
    StandsAt(data, j, digits, 0);
    StandsEnd(data, j, digits);
    DigitsRead(data, j, digits);
    NumberEnd(data, j + |digits|, Value10(digits));
    LexDecimal(data, i);
  }

  // ---------- values ----------

  /** What the parser makes of the text at `i`: the value `v`, which ends at `next`. */
  ghost predicate Reads(data: string, i: nat, v: Lua, next: nat) {
    i <= |data| && next <= |data| && var r := Lex(data, i); ParseValue(data, r.0, r.1) == Parsed(v, next)
  }

  lemma {:induction false} ValueReads(y: Syntax, data: string, i: nat)
    requires ValueOk(y) && Stands(data, i, ValueText(y)) && Ends(At(data, i + |ValueText(y)|))
    ensures Reads(data, i, Meaning(y), i + |ValueText(y)|)
    decreases y, 1
  {
    hide Lex, Stands, Decimals, CharsOk;
    StandsEnd(data, i, ValueText(y));
    match y
    case SNull => WordRead(data, i, "null");
    case STrue => WordRead(data, i, "true");
    case SFalse => WordRead(data, i, "false");
    case SNum(minus, digits) => NumberRead(data, i, minus, digits);
    case SStr(chars) => StringRead(data, i, chars);
    case SArr(items, blank) => ArrayReads(items, blank, data, i);
    case SObj(members, blank) => ObjectReads(members, blank, data, i);
  }

  /** A value between white space: what is behind the value is read as what is behind the space. */
  lemma {:induction false} ItemReads(it: Item, data: string, i: nat)
    requires ItemOk(it) && Stands(data, i, ItemText(it)) && Ends(At(data, i + |ItemText(it)|))
    ensures var next := i + |it.before| + |ValueText(it.value)|;
      Reads(data, i, Meaning(it.value), next) && i + |ItemText(it)| <= |data| && Lex(data, next) == Lex(data, i + |ItemText(it)|)
    decreases it, 2
  {
    hide Lex, Stands, ValueText, ValueOk, Meaning, ParseValue;
    var t := ValueText(it.value);
    assert ItemText(it) == it.before + (t + it.after);
    StandsSplit(data, i, it.before, t + it.after);
    StandsSplit(data, i + |it.before|, t, it.after);
    StandsEnd(data, i, ItemText(it));
    WhiteRead(data, i, it.before);
    AfterEnds(it, data, i + |it.before| + |t|);
    ValueReads(it.value, data, i + |it.before|);
    WhiteRead(data, i + |it.before| + |t|, it.after);
  }

  /** Space can stand behind a value. */
  lemma AfterEnds(it: Item, data: string, i: nat)
    requires White(it.after) && Stands(data, i, it.after) && Ends(At(data, i + |it.after|))
    ensures Ends(At(data, i))
  {
    if it.after != "" {
      StandsAt(data, i, it.after, 0);
    }
  }

  lemma {:induction false} ArrayReads(items: seq<Item>, blank: string, data: string, i: nat)
    requires ValueOk(SArr(items, blank)) && Stands(data, i, ValueText(SArr(items, blank)))
    ensures Reads(data, i, Meaning(SArr(items, blank)), i + |ValueText(SArr(items, blank))|)
    decreases SArr(items, blank), 0
  {
    hide Lex, Stands, ItemOk, ItemsText, ParseElements;
    StandsEnd(data, i, ValueText(SArr(items, blank)));
    if items == [] {
      StandsSplit(data, i, "[", blank + "]");
      StandsSplit(data, i + 1, blank, "]");
      WordRead(data, i, "[");
      WhiteRead(data, i + 1, blank);
      WordRead(data, i + 1 + |blank|, "]");
    } else {
      StandsSplit(data, i, "[", ItemsText(items));
      WordRead(data, i, "[");
      ItemsRead(items, 1, data, i + 1, map[]);
    }
  }

  lemma {:induction false} ItemsRead(items: seq<Item>, n: nat, data: string, i: nat, acc: map<Key, Lua>)
    requires items != [] && (forall it :: it in items ==> ItemOk(it)) && Stands(data, i, ItemsText(items)) && i <= |data|
    ensures var l := Lex(data, i);
      && !l.0.ArrEnd? && !l.0.End? && !l.0.Error?
      && ParseElements(data, l.0, l.1, n, acc) == Parsed(Table(Listed(acc, n, items)), i + |ItemsText(items)|)
    decreases items, 3
  {
    hide Lex, Stands, ItemOk, ItemText, ParseValue, ParseElements, Meaning;
    var it, rest := items[0], if |items| == 1 then "]" else "," + ItemsText(items[1..]);
    assert it in items && forall x :: x in items[1..] ==> x in items;
    StandsSplit(data, i, ItemText(it), rest);
    var j := i + |ItemText(it)|;
    StandsAt(data, j, rest, 0);
    ItemReads(it, data, i);
    var l := Lex(data, i);
    NoValue(data, l.0, l.1);
    ElementParsed(data, l.0, l.1, n, acc);
    if |items| == 1 {
      WordRead(data, j, "]");
      assert items[1..] == [];
    } else {
      StandsSplit(data, j, ",", ItemsText(items[1..]));
      StandsEnd(data, j, ",");
      WordRead(data, j, ",");
      ItemsRead(items[1..], n + 1, data, j + 1, acc[KNum(n) := Meaning(it.value)]);
    }
  }

  /** One element, parsed. */
  lemma ElementParsed(data: string, tok: Token, i: nat, n: nat, acc: map<Key, Lua>)
    requires i <= |data| && ParseValue(data, tok, i).Parsed?
    ensures var p := ParseValue(data, tok, i);
      var acc', r := acc[KNum(n) := p.v], Lex(data, p.next);
      && (r.0.ArrEnd? ==> ParseElements(data, tok, i, n, acc) == Parsed(Table(acc'), r.1))
      && (r.0.Comma? ==> ParseElements(data, tok, i, n, acc) == ParseElements(data, Lex(data, r.1).0, Lex(data, r.1).1, n + 1, acc'))
  {
    hide Lex, ParseValue;
  }

  lemma NoValue(data: string, tok: Token, i: nat)
    requires i <= |data| && ParseValue(data, tok, i).Parsed?
    ensures !tok.ArrEnd? && !tok.End? && !tok.Error?
  {
  }

  lemma {:induction false} ObjectReads(members: seq<Member>, blank: string, data: string, i: nat)
    requires ValueOk(SObj(members, blank)) && Stands(data, i, ValueText(SObj(members, blank)))
    ensures Reads(data, i, Meaning(SObj(members, blank)), i + |ValueText(SObj(members, blank))|)
    decreases SObj(members, blank), 0
  {
    hide Lex, Stands, MemberOk, MembersText, ParseMembers;
    StandsEnd(data, i, ValueText(SObj(members, blank)));
    if members == [] {
      StandsSplit(data, i, "{", blank + "}");
      StandsSplit(data, i + 1, blank, "}");
      WordRead(data, i, "{");
      WhiteRead(data, i + 1, blank);
      WordRead(data, i + 1 + |blank|, "}");
    } else {
      StandsSplit(data, i, "{", MembersText(members));
      WordRead(data, i, "{");
      MembersRead(members, data, i + 1, map[]);
    }
  }

  /** A key and the colon behind it. */
  lemma KeyReads(m: Member, data: string, i: nat)
    requires White(m.lead) && CharsOk(m.key) && White(m.mid) && Stands(data, i, MemberText(m)) && i <= |data|
    ensures var k, l := i + |m.lead + StringText(m.key)|, i + |m.lead + StringText(m.key) + m.mid|;
      && Lex(data, i) == (StrTok(Bytes(m.key)), k) && k <= |data| && Lex(data, k) == (Colon, l + 1)
      && Stands(data, l + 1, ItemText(m.item)) && l + 1 + |ItemText(m.item)| == i + |MemberText(m)|
  {
    hide Lex, Stands, ItemText, StringText, CharsOk, White, Bytes;
    var a, b := m.lead, StringText(m.key);
    assert MemberText(m) == a + (b + (m.mid + (":" + ItemText(m.item))));
    StandsSplit(data, i, a, b + (m.mid + (":" + ItemText(m.item))));
    var j := i + |a|;
    StandsSplit(data, j, b, m.mid + (":" + ItemText(m.item)));
    var k := j + |b|;
    StandsSplit(data, k, m.mid, ":" + ItemText(m.item));
    StandsSplit(data, k + |m.mid|, ":", ItemText(m.item));
    StandsEnd(data, j, b);
    WhiteRead(data, i, a);
    StringRead(data, j, m.key);
    WhiteRead(data, k, m.mid);
    WordRead(data, k + |m.mid|, ":");
  }

  /** A member, and the value behind its colon. */
  lemma {:induction false} MemberReads(m: Member, data: string, i: nat, acc: map<Key, Lua>)
    requires MemberOk(m) && Stands(data, i, MemberText(m)) && Ends(At(data, i + |MemberText(m)|)) && i <= |data|
    ensures var end, l := i + |MemberText(m)|, Lex(data, i);
      && end <= |data| && l.0.StrTok?
      && var acc', r := acc[KStr(Bytes(m.key)) := Meaning(m.item.value)], Lex(data, end);
      && (r.0.ObjEnd? ==> ParseMembers(data, l.0, l.1, acc) == Parsed(Table(acc'), r.1))
      && (r.0.Comma? ==> ParseMembers(data, l.0, l.1, acc) == ParseMembers(data, Lex(data, r.1).0, Lex(data, r.1).1, acc'))
    decreases m, 3
  {
    hide Lex, Stands, ItemText, MemberText, StringText, ItemOk, CharsOk, White, ParseValue, ParseMembers, Meaning, Bytes;
    KeyReads(m, data, i);
    var k, l := i + |m.lead + StringText(m.key)|, i + |m.lead + StringText(m.key) + m.mid|;
    ItemReads(m.item, data, l + 1);
    MemberParsed(data, Bytes(m.key), k, acc, Meaning(m.item.value), l + 1 + |m.item.before| + |ValueText(m.item.value)|);
  }

  lemma {:induction false} MembersRead(members: seq<Member>, data: string, i: nat, acc: map<Key, Lua>)
    requires members != [] && (forall m :: m in members ==> MemberOk(m)) && Stands(data, i, MembersText(members)) && i <= |data|
    ensures var l := Lex(data, i);
      l.0.StrTok? && ParseMembers(data, l.0, l.1, acc) == Parsed(Table(Named(acc, members)), i + |MembersText(members)|)
    decreases members, 4
  {
    hide Lex, Stands, MemberOk, MemberText, ParseMembers, Meaning, Bytes;
    var m, rest := members[0], if |members| == 1 then "}" else "," + MembersText(members[1..]);
    assert m in members && forall x :: x in members[1..] ==> x in members;
    StandsSplit(data, i, MemberText(m), rest);
    var j := i + |MemberText(m)|;
    StandsAt(data, j, rest, 0);
    MemberReads(m, data, i, acc);
    if |members| == 1 {
      WordRead(data, j, "}");
      assert members[1..] == [];
    } else {
      StandsSplit(data, j, ",", MembersText(members[1..]));
      StandsEnd(data, j, ",");
      WordRead(data, j, ",");
      MembersRead(members[1..], data, j + 1, acc[KStr(Bytes(m.key)) := Meaning(m.item.value)]);
    }
  }

  /** One member, parsed. */
  lemma MemberParsed(data: string, key: string, i: nat, acc: map<Key, Lua>, item: Lua, next: nat)
    requires i <= |data| && Lex(data, i).0.Colon?
    requires var c := Lex(data, i).1; ParseValue(data, Lex(data, c).0, Lex(data, c).1) == Parsed(item, next)
    ensures next <= |data|
    ensures var acc', r := acc[KStr(key) := item], Lex(data, next);
      && (r.0.ObjEnd? ==> ParseMembers(data, StrTok(key), i, acc) == Parsed(Table(acc'), r.1))
      && (r.0.Comma? ==> ParseMembers(data, StrTok(key), i, acc) == ParseMembers(data, Lex(data, r.1).0, Lex(data, r.1).1, acc'))
  {
    hide Lex, ParseValue;
  }

  // ---------- whole texts ----------

  /** Every JSON text, with whatever white space, is decoded to the value that it stands for. */
  lemma ReadsJson(it: Item)
    requires ItemOk(it)
    ensures Decode(ItemText(it)) == Some(Meaning(it.value))
  {
    hide Lex, ParseValue, ItemText, ItemOk, Meaning;
    var t := ItemText(it);
    assert Stands(t, 0, t);
    ItemReads(it, t, 0);
    AtEnd(t);
    ItemNoNul(it);
  }

  lemma AtEnd(t: string)
    ensures Lex(t, |t|) == (End, |t|)
  {
  }

  // ---------- no NUL in a text ----------

  lemma {:induction false} CharsNoNul(chars: seq<Char>)
    requires CharsOk(chars)
    ensures '\0' !in CharsText(chars)
  {
    if chars != [] {
      assert chars[0] in chars && forall ch :: ch in chars[1..] ==> ch in chars;
      CharsNoNul(chars[1..]);
      CharNoNul(chars[0]);
    }
  }

  lemma CharNoNul(ch: Char)
    requires CharOk(ch)
    ensures '\0' !in CharText(ch)
  {
    if ch.Unit? { UnitNoNul(ch.hex); }
    if ch.Pair? { UnitNoNul(ch.high); UnitNoNul(ch.low); }
  }

  lemma UnitNoNul(hex: string)
    requires IsUnit(hex)
    ensures '\0' !in hex
  {
    assert HexLetter(hex[0]) && HexLetter(hex[1]) && HexLetter(hex[2]) && HexLetter(hex[3]);
  }

  lemma {:induction false} ValueNoNul(y: Syntax)
    requires ValueOk(y)
    ensures '\0' !in ValueText(y)
    decreases y, 0
  {
    hide ItemOk, MemberOk, ItemsText, MembersText, CharsText;
    match y
    case SStr(chars) => CharsNoNul(chars);
    case SArr(items, _) => if items != [] { ItemsNoNul(items); }
    case SObj(members, _) => if members != [] { MembersNoNul(members); }
    case _ =>
  }

  lemma {:induction false} ItemNoNul(it: Item)
    requires ItemOk(it)
    ensures '\0' !in ItemText(it)
    decreases it, 1
  {
    hide ValueText, ValueOk;
    ValueNoNul(it.value);
  }

  lemma {:induction false} ItemsNoNul(items: seq<Item>)
    requires items != [] && forall it :: it in items ==> ItemOk(it)
    ensures '\0' !in ItemsText(items)
    decreases items, 2
  {
    hide ItemText, ItemOk;
    assert items[0] in items && forall x :: x in items[1..] ==> x in items;
    ItemNoNul(items[0]);
    if |items| > 1 {
      ItemsNoNul(items[1..]);
    }
  }

  lemma {:induction false} MembersNoNul(members: seq<Member>)
    requires members != [] && forall m :: m in members ==> MemberOk(m)
    ensures '\0' !in MembersText(members)
    decreases members, 2
  {
    hide ItemText, ItemOk, CharsText, CharsOk;
    assert members[0] in members && forall x :: x in members[1..] ==> x in members;
    CharsNoNul(members[0].key);
    ItemNoNul(members[0].item);
    if |members| > 1 {
      MembersNoNul(members[1..]);
    }
  }
}
