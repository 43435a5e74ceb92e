/** Decoding what was encoded gives the value back, whatever order its tables are listed in. */
module JsonRoundTrip {
  import opened Tasks
  import opened JsonText
  import opened JsonModel
  import opened JsonGrammar
  import opened JsonReads

  /** A table with the keys 1 to n. */
  ghost predicate Array(m: map<Key, Lua>) { forall k :: k in m ==> k.KNum? && 1 <= k.n <= |m| }

  ghost predicate Object(m: map<Key, Lua>) { forall k :: k in m ==> k.KStr? }

  /** Built of what JSON knows: hole-free arrays and string-keyed tables.  No Lua table holds nil. */
  ghost predicate Plain(v: Lua) {
    !v.Other? && (v.Table? ==> (Array(v.m) || Object(v.m)) && forall k :: k in v.m ==> Plain(v.m[k]) && !v.m[k].Nil?)
  }

  /** No more than `n` tables inside one another. */
  ghost predicate NestsWithin(v: Lua, n: int) {
    v.Table? ==> n > 0 && forall k :: k in v.m ==> NestsWithin(v.m[k], n - 1)
  }

  /** JSON has one null for nil and NULL. */
  ghost function Norm(v: Lua): Lua { if v.Nil? then Null else v }

  // ---------- arrays ----------

  ghost function Numbers(n: nat): set<Key> { set i: int | 1 <= i <= n :: KNum(i) }

  lemma {:induction false} NumbersCount(n: nat)
    ensures |Numbers(n)| == n
  {
    if n == 0 {
      assert Numbers(0) == {};
    } else {
      NumbersCount(n - 1);
      assert Numbers(n) == Numbers(n - 1) + {KNum(n)} && KNum(n) !in Numbers(n - 1);
    }
  }

  /** Within a set of the same size there is no other subset of that size. */
  lemma SameSize(a: set<Key>, b: set<Key>)
    requires a <= b && |a| == |b|
    ensures a == b
  {
    assert b == a + (b - a) && |b| == |a| + |b - a|;
  }

  lemma ArrayKeys(m: map<Key, Lua>, k: Key)
    requires Array(m)
    ensures k in m <==> k.KNum? && 1 <= k.n <= |m|
  {
    NumbersCount(|m|);
    forall j | j in m.Keys ensures j in Numbers(|m|) {
      assert j == KNum(j.n);
    }
    SameSize(m.Keys, Numbers(|m|));
  }

  lemma {:induction false} ListLength(keys: seq<Key>, s: set<Key>)
    requires (forall k :: k in keys <==> k in s) && forall i, j :: 0 <= i < j < |keys| ==> keys[i] != keys[j]
    ensures |keys| == |s|
    decreases |keys|
  {
    if keys == [] {
      if k :| k in s {
        assert k in keys;
      }
    } else {
      var rest := keys[1..];
      forall k | k in rest ensures k in s - {keys[0]} {
        var i :| 0 <= i < |rest| && rest[i] == k;
        assert keys[i + 1] == k;
      }
      forall k | k in s - {keys[0]} ensures k in rest {
        var i :| 0 <= i < |keys| && keys[i] == k;
        assert rest[i - 1] == k;
      }
      forall i, j | 0 <= i < j < |rest| ensures rest[i] != rest[j] {
        assert keys[i + 1] != keys[j + 1];
      }
      ListLength(rest, s - {keys[0]});
      assert keys[0] in s;
    }
  }

  lemma {:induction false} TopBounds(keys: seq<Key>, n: nat)
    requires forall k :: k in keys ==> Index(k) && k.n <= n
    ensures Top(keys) <= n && forall k :: k in keys ==> Index(k) && k.n <= Top(keys)
  {
    if keys != [] {
      forall k | k in keys[1..] ensures k in keys {
      }
      TopBounds(keys[1..], n);
      assert forall k :: k in keys <==> k == keys[0] || k in keys[1..];
    }
  }

  /** lua_array_length finds the length of a hole-free array, which is never sparse. */
  lemma ArrayTop(cfg: Config, keys: seq<Key>, m: map<Key, Lua>)
    requires Array(m) && Lists(keys, m)
    ensures AllIndices(keys) && Top(keys) == |m| && !Sparse(cfg, keys)
  {
    ListLength(keys, m.Keys);
    TopBounds(keys, |m|);
    if |m| > 0 {
      ArrayKeys(m, KNum(|m|));
      assert KNum(|m|) in keys;
    }
    NeverSparse(|m|, cfg.sparseRatio);
  }

  lemma NeverSparse(n: nat, ratio: nat)
    ensures ratio > 0 ==> n <= n * ratio
  {
  }

  /** Only an empty table of string keys looks like an array. */
  lemma ObjectKeys(keys: seq<Key>, m: map<Key, Lua>)
    requires Object(m) && Lists(keys, m)
    ensures AllIndices(keys) <==> m == map[]
  {
    if keys != [] {
      assert keys[0] in m && !Index(keys[0]);
    }
    if m != map[] {
      var k :| k in m;
      assert k in keys;
    }
  }

  lemma ListsAll(order: Order, m: map<Key, Lua>)
    requires Enumerates(order)
    ensures Lists(order(m), m)
  {
  }

  // ---------- nesting ----------

  lemma ArrayText(order: Order, cfg: Config, v: Lua, depth: nat)
    requires Enumerates(order) && v.Table? && Array(v.m)
    ensures Encode(order, cfg, v, depth) ==
      if depth + 1 > cfg.maxDepth then None else Joined(Some("["), Elements(order, cfg, v, 1, |v.m|, depth + 1))
  {
    hide Enumerates, Lists, Top, Array, Sparse, AllIndices;
    ListsAll(order, v.m);
    ArrayTop(cfg, order(v.m), v.m);
  }

  lemma ObjectText(order: Order, cfg: Config, v: Lua, depth: nat)
    requires Enumerates(order) && v.Table? && Object(v.m) && v.m != map[]
    ensures Encode(order, cfg, v, depth) ==
      if depth + 1 > cfg.maxDepth then None else Joined(Some("{"), Members(order, cfg, v, order(v.m), true, depth + 1))
    ensures forall k :: k in order(v.m) <==> k in v.m
    ensures forall i, j :: 0 <= i < j < |order(v.m)| ==> order(v.m)[i] != order(v.m)[j]
  {
    ListsAll(order, v.m);
    ObjectKeys(order(v.m), v.m);
  }

  /** A plain value is encoded exactly when it does not nest too deep. */
  lemma {:induction false} EncodesIff(order: Order, cfg: Config, v: Lua, depth: nat)
    requires Enumerates(order) && Plain(v)
    ensures Encode(order, cfg, v, depth).Some? <==> NestsWithin(v, cfg.maxDepth - depth)
    decreases v, 1, 0
  {
    hide Enumerates, Array, Object;
    if v.Table? {
      NotArray(v.m);
      hide Encode, NestsWithin;
      if Array(v.m) {
        ArrayIff(order, cfg, v, depth);
      } else {
        ObjectIff(order, cfg, v, depth);
      }
    }
  }

  lemma {:induction false} ArrayIff(order: Order, cfg: Config, v: Lua, depth: nat)
    requires Enumerates(order) && Plain(v) && v.Table? && Array(v.m)
    ensures Encode(order, cfg, v, depth).Some? <==> NestsWithin(v, cfg.maxDepth - depth)
    decreases v, 0, |v.m| + 1
  {
    hide Enumerates, Array, Encode, Elements, Plain;
    ArrayText(order, cfg, v, depth);
    if depth + 1 <= cfg.maxDepth {
      ElementsIff(order, cfg, v, 1, depth + 1);
      OneToEnd(v, cfg.maxDepth - depth - 1);
    }
  }

  lemma {:induction false} ObjectIff(order: Order, cfg: Config, v: Lua, depth: nat)
    requires Enumerates(order) && Plain(v) && v.Table? && Object(v.m) && v.m != map[]
    ensures Encode(order, cfg, v, depth).Some? <==> NestsWithin(v, cfg.maxDepth - depth)
    decreases v, 0, |order(v.m)| + 2
  {
    hide Enumerates, Object, Encode, Members, Plain;
    ObjectText(order, cfg, v, depth);
    if depth + 1 <= cfg.maxDepth {
      MembersIff(order, cfg, v, order(v.m), true, depth + 1);
    }
  }

  lemma NotArray(m: map<Key, Lua>)
    ensures m == map[] ==> Array(m)
  {
  }

  /** The elements of an array are all its values. */
  lemma OneToEnd(v: Lua, n: int)
    requires v.Table? && Array(v.m)
    ensures (forall j: int :: 1 <= j <= |v.m| ==> KNum(j) in v.m && NestsWithin(v.m[KNum(j)], n)) <==> (forall k :: k in v.m ==> NestsWithin(v.m[k], n))
  {
    forall j: int | 1 <= j <= |v.m| ensures KNum(j) in v.m {
      ArrayKeys(v.m, KNum(j));
    }
    forall k | k in v.m ensures k == KNum(k.n) && 1 <= k.n <= |v.m| {
    }
  }

  lemma {:induction false} ElementsIff(order: Order, cfg: Config, v: Lua, i: nat, depth: nat)
    requires Enumerates(order) && Plain(v) && v.Table? && Array(v.m) && 1 <= i
    ensures Elements(order, cfg, v, i, |v.m|, depth).Some? <==>
      forall j: int :: i <= j <= |v.m| ==> KNum(j) in v.m && NestsWithin(v.m[KNum(j)], cfg.maxDepth - depth)
    decreases v, 0, if i <= |v.m| then |v.m| - i + 1 else 0
  {
    if i <= |v.m| {
      hide Enumerates;
      ArrayKeys(v.m, KNum(i));
      EncodesIff(order, cfg, v.m[KNum(i)], depth);
      ElementsIff(order, cfg, v, i + 1, depth);
    }
  }

  lemma {:induction false} MembersIff(order: Order, cfg: Config, v: Lua, keys: seq<Key>, first: bool, depth: nat)
    requires Enumerates(order) && Plain(v) && v.Table? && Object(v.m) && forall k :: k in keys ==> k in v.m
    ensures Members(order, cfg, v, keys, first, depth).Some? <==>
      forall k :: k in keys ==> NestsWithin(v.m[k], cfg.maxDepth - depth)
    decreases v, 0, |keys| + 1
  {
    if keys != [] {
      hide Enumerates;
      forall k | k in keys[1..] ensures k in keys {
      }
      EncodesIff(order, cfg, v.m[keys[0]], depth);
      MembersIff(order, cfg, v, keys[1..], false, depth);
      assert forall k :: k in keys <==> k == keys[0] || k in keys[1..];
    }
  }

  // ---------- the text is JSON ----------

  /** What is written for a byte stands for it. */
  lemma EscapeWrites(c: char) returns (ch: Char)
    ensures CharOk(ch) && CharText(ch) == Escape(c) && Denoted(ch) == [c]
  {
    var e := Escape(c);
    if |e| == 1 {
      ch := Itself(c);
    } else if |e| == 2 {
      ch := Short(e[1]);
      assert [ShortMeans(e[1]).value as char] == [c];
    } else {
      var hex := "00" + [HexDigit(c as int / 16), HexDigit(c as int % 16)];
      HexMeansIt(c as int / 16);
      HexMeansIt(c as int % 16);
      assert IsUnit(hex) && UnitMeans(hex) == c as int;
      ch := Unit(hex);
      assert "\\u" + hex == e;
      assert Utf8(c as int) == [c];
    }
  }

  lemma HexMeansIt(n: nat)
    requires n < 16
    ensures HexLetter(HexDigit(n)) && HexMeans(HexDigit(n)) == n
  {
  }

  /** The text of a string denotes it, by section 7 of RFC 8259. */
  lemma {:induction false} StringWrites(s: string) returns (chars: seq<Char>)
    ensures CharsOk(chars) && StringText(chars) == Quoted(s) && CharsText(chars) == Escaped(s) && Bytes(chars) == s
    decreases |s|
  {
    hide Escape, CharOk, CharText, Denoted;
    if s == "" {
      chars := [];
    } else {
      var ch := EscapeWrites(s[0]);
      var rest := StringWrites(s[1..]);
      chars := [ch] + rest;
      assert chars[1..] == rest && [s[0]] + s[1..] == s;
    }
  }

  lemma DigitWrites(d: nat)
    requires d < 10
    ensures '0' <= HexDigit(d) <= '9' && HexDigit(d) as int == '0' as int + d && (HexDigit(d) == '0' ==> d == 0)
  {
  }

  lemma {:induction false} DigitsWrite(n: nat)
    ensures Digits(n) != "" && Decimals(Digits(n)) && Value10(Digits(n)) == n
    decreases n
  {
    hide HexDigit;
    DigitWrites(n % 10);
    var s := Digits(n);
    if n < 10 {
      assert s == [HexDigit(n % 10)] && s[..0] == "";
      assert Value10(s) == Value10(s[..0]) * 10 + n;
    } else {
      DigitsWrite(n / 10);
      assert s[..|s| - 1] == Digits(n / 10) && s[|s| - 1] == HexDigit(n % 10);
      assert Value10(s) == Value10(s[..|s| - 1]) * 10 + n % 10;
    }
  }

  /** There is no leading zero. */
  lemma {:induction false} NoLeadingZero(n: nat)
    ensures Digits(n) != "" && (Digits(n)[0] == '0' ==> n == 0)
    decreases n
  {
    hide HexDigit;
    DigitWrites(n % 10);
    if n >= 10 {
      NoLeadingZero(n / 10);
      assert Digits(n)[0] == Digits(n / 10)[0];
    }
  }

  lemma NumberWrites(n: Integer) returns (y: Syntax)
    ensures ValueOk(y) && ValueText(y) == Decimal(n) && Meaning(y) == Num(n)
  {
    hide Digits, Decimals, Value10, ValueOk, ValueText, Meaning;
    var a: nat := if n < 0 then -n else n;
    DigitsWrite(a);
    NoLeadingZero(a);
    OneZero();
    y := SNum(n < 0, Digits(a));
    Signed(n < 0, Digits(a), n);
    SignedText(n < 0, Digits(a));
  }

  lemma OneZero()
    ensures |Digits(0)| == 1
  {
  }

  lemma SignedText(minus: bool, digits: string)
    ensures ValueText(SNum(minus, digits)) == if minus then "-" + digits else digits
    ensures ValueOk(SNum(minus, digits)) <==> digits != "" && Decimals(digits) && (digits[0] == '0' ==> |digits| == 1) && Value10(digits) < 100000000000000
  {
    assert "" + digits == digits;
  }

  lemma Signed(minus: bool, digits: string, n: Integer)
    requires Decimals(digits) && n == if minus then 0 - Value10(digits) else Value10(digits)
    ensures Meaning(SNum(minus, digits)) == Num(n)
  {
    hide Decimals, Value10;
  }

  /** What is encoded is the text of a JSON value, and stands for the value that was encoded. */
  lemma {:induction false} ValueWrites(order: Order, cfg: Config, v: Lua, depth: nat) returns (y: Syntax)
    requires Enumerates(order) && Plain(v) && Encode(order, cfg, v, depth).Some?
    ensures ValueOk(y) && ValueText(y) == Encode(order, cfg, v, depth).value && Meaning(y) == Norm(v)
    decreases v, 2, 0
  {
    hide Enumerates, Array, Object, Decimal, Quoted, StringText, CharsOk;
    match v
    case Nil => y := SNull;
    case Null => y := SNull;
    case Bool(b) => y := if b then STrue else SFalse;
    case Num(n) => y := NumberWrites(n);
    case Str(s) =>
      var chars := StringWrites(s);
      y := SStr(chars);
    case Other =>
    case Table(m) =>
      NotArray(m);
      if Array(m) {
        y := ArrayWrites(order, cfg, v, depth);
      } else {
        y := ObjectWrites(order, cfg, v, depth);
      }
  }

  lemma {:induction false} ArrayWrites(order: Order, cfg: Config, v: Lua, depth: nat) returns (y: Syntax)
    requires Enumerates(order) && Plain(v) && v.Table? && Array(v.m) && Encode(order, cfg, v, depth).Some?
    ensures ValueOk(y) && ValueText(y) == Encode(order, cfg, v, depth).value && Meaning(y) == v
    decreases v, 1, 0
  {
    hide Enumerates, Array, Encode, ItemOk, ItemsText;
    ArrayText(order, cfg, v, depth);
    if |v.m| == 0 {
      y := SArr([], "");
      assert "" + "]" == "]";
    } else {
      NoneBefore(v.m);
      var items := ElementsWrite(order, cfg, v, 1, depth + 1, map[]);
      y := SArr(items, "");
      assert "" + ItemsText(items) == ItemsText(items);
    }
  }

  /** The elements before the `k`th. */
  ghost predicate Before(acc: map<Key, Lua>, m: map<Key, Lua>, k: nat) {
    forall q :: (q in acc <==> q in m && q.KNum? && q.n < k) && (q in acc ==> q in m && acc[q] == m[q])
  }

  lemma NoneBefore(m: map<Key, Lua>)
    requires Array(m)
    ensures Before(map[], m, 1)
  {
  }

  lemma BeforeStep(acc: map<Key, Lua>, m: map<Key, Lua>, k: nat)
    requires Before(acc, m, k) && Array(m) && KNum(k) in m
    ensures Before(acc[KNum(k) := m[KNum(k)]], m, k + 1)
    ensures k == |m| ==> acc[KNum(k) := m[KNum(k)]] == m
  {
    var acc' := acc[KNum(k) := m[KNum(k)]];
    forall q | q in m && q.n < k + 1 ensures q in acc' && acc'[q] == m[q] {
      assert q == KNum(q.n);
    }
  }

  lemma {:induction false} ElementsWrite(order: Order, cfg: Config, v: Lua, k: nat, depth: nat, acc: map<Key, Lua>) returns (items: seq<Item>)
    requires Enumerates(order) && Plain(v) && v.Table? && Array(v.m) && 1 <= k <= |v.m| && Before(acc, v.m, k)
    requires Elements(order, cfg, v, k, |v.m|, depth).Some?
    ensures items != [] && forall it :: it in items ==> ItemOk(it)
    ensures Elements(order, cfg, v, k, |v.m|, depth).value == (if k > 1 then "," else "") + ItemsText(items)
    ensures Listed(acc, k, items) == v.m
    decreases v, 0, |v.m| - k
  {
    hide Enumerates, Array, Encode, Before, ValueText, ValueOk, Meaning, Norm;
    ArrayKeys(v.m, KNum(k));
    ElementParts(order, cfg, v, k, depth);
    var item := v.m[KNum(k)];
    PlainInside(v, KNum(k));
    var y := ValueWrites(order, cfg, item, depth);
    var acc' := acc[KNum(k) := item];
    BeforeStep(acc, v.m, k);
    var it := Item("", y, "");
    BareItem(y);
    if k == |v.m| {
      items := [it];
      LastElement(order, cfg, v, depth);
      assert Listed(acc', k + 1, []) == acc' && items[1..] == [];
    } else {
      var rest := ElementsWrite(order, cfg, v, k + 1, depth, acc');
      items := [it] + rest;
      assert items[1..] == rest;
    }
  }

  lemma PlainInside(v: Lua, k: Key)
    requires Plain(v) && v.Table? && k in v.m
    ensures Plain(v.m[k]) && Norm(v.m[k]) == v.m[k]
  {
  }

  /** A value without white space. */
  lemma BareItem(y: Syntax)
    ensures ItemText(Item("", y, "")) == ValueText(y) && (ValueOk(y) ==> ItemOk(Item("", y, "")))
  {
    hide ValueText, ValueOk;
    assert "" + ValueText(y) + "" == ValueText(y);
  }

  lemma ElementParts(order: Order, cfg: Config, v: Lua, k: nat, depth: nat)
    requires v.Table? && 1 <= k <= |v.m| && KNum(k) in v.m && Elements(order, cfg, v, k, |v.m|, depth).Some?
    ensures Encode(order, cfg, v.m[KNum(k)], depth).Some? && Elements(order, cfg, v, k + 1, |v.m|, depth).Some?
    ensures Elements(order, cfg, v, k, |v.m|, depth).value ==
      (if k > 1 then "," else "") + (Encode(order, cfg, v.m[KNum(k)], depth).value + Elements(order, cfg, v, k + 1, |v.m|, depth).value)
  {
    hide Encode;
  }

  lemma LastElement(order: Order, cfg: Config, v: Lua, depth: nat)
    requires v.Table? && |v.m| > 0
    ensures Elements(order, cfg, v, |v.m| + 1, |v.m|, depth) == Some("]")
  {
  }

  lemma {:induction false} ObjectWrites(order: Order, cfg: Config, v: Lua, depth: nat) returns (y: Syntax)
    requires Enumerates(order) && Plain(v) && v.Table? && Object(v.m) && v.m != map[] && Encode(order, cfg, v, depth).Some?
    ensures ValueOk(y) && ValueText(y) == Encode(order, cfg, v, depth).value && Meaning(y) == v
    decreases v, 1, 0
  {
    hide Enumerates, Object, Encode, MemberOk, MembersText;
    ObjectText(order, cfg, v, depth);
    SomeKey(order(v.m), v.m);
    var members := MembersWrite(order, cfg, v, order(v.m), true, depth + 1, map[]);
    y := SObj(members, "");
    assert "" + MembersText(members) == MembersText(members);
  }

  lemma SomeKey(keys: seq<Key>, m: map<Key, Lua>)
    requires (forall k :: k in keys <==> k in m) && m != map[]
    ensures keys != [] && Rest(map[], m, keys)
  {
    var k :| k in m;
    assert k in keys;
  }

  /** What the text of the members is made of. */
  lemma MemberParts(order: Order, cfg: Config, v: Lua, keys: seq<Key>, first: bool, depth: nat) returns (key: string, x: string, r: string)
    requires v.Table? && Object(v.m) && keys != [] && keys[0] in v.m && Members(order, cfg, v, keys, first, depth).Some?
    ensures keys[0] == KStr(key) && Encode(order, cfg, v.m[keys[0]], depth) == Some(x)
    ensures Members(order, cfg, v, keys[1..], false, depth) == Some(r)
    ensures Members(order, cfg, v, keys, first, depth).value == (if first then "" else ",") + (Quoted(key) + (":" + (x + r)))
  {
    key := keys[0].s;
    x := Encode(order, cfg, v.m[keys[0]], depth).value;
    r := Members(order, cfg, v, keys[1..], false, depth).value;
    MemberJoined(if first then "" else ",", Quoted(key), x, r);
  }

  lemma MemberJoined(c: string, key: string, x: string, r: string)
    ensures ((c + key) + ":") + x + r == c + (key + (":" + (x + r)))
  {
  }

  /** The members whose keys are still to come are missing. */
  ghost predicate Rest(acc: map<Key, Lua>, m: map<Key, Lua>, keys: seq<Key>) {
    forall q :: (q in acc <==> q in m && q !in keys) && (q in acc ==> q in m && acc[q] == m[q])
  }

  lemma RestStep(acc: map<Key, Lua>, m: map<Key, Lua>, keys: seq<Key>)
    requires keys != [] && Rest(acc, m, keys) && keys[0] in m && forall i, j :: 0 <= i < j < |keys| ==> keys[i] != keys[j]
    ensures Rest(acc[keys[0] := m[keys[0]]], m, keys[1..])
    ensures |keys| == 1 ==> acc[keys[0] := m[keys[0]]] == m
  {
    var acc' := acc[keys[0] := m[keys[0]]];
    assert keys[0] !in keys[1..];
    forall q | q in m && q !in keys[1..] ensures q in acc' && acc'[q] == m[q] {
      assert q == keys[0] || q !in keys;
    }
    forall q | q in acc' ensures q in m && q !in keys[1..] && acc'[q] == m[q] {
    }
  }

  lemma {:induction false} MembersWrite(order: Order, cfg: Config, v: Lua, keys: seq<Key>, first: bool, depth: nat, acc: map<Key, Lua>) returns (members: seq<Member>)
    requires Enumerates(order) && Plain(v) && v.Table? && Object(v.m) && keys != [] && Rest(acc, v.m, keys)
    requires (forall k :: k in keys ==> k in v.m) && forall i, j :: 0 <= i < j < |keys| ==> keys[i] != keys[j]
    requires Members(order, cfg, v, keys, first, depth).Some?
    ensures members != [] && forall m :: m in members ==> MemberOk(m)
    ensures Members(order, cfg, v, keys, first, depth).value == (if first then "" else ",") + MembersText(members)
    ensures Named(acc, members) == v.m
    decreases v, 0, |keys|
  {
    hide Enumerates, Object, Encode, Rest, Members, ValueText, ValueOk, Meaning, Norm, Quoted, StringText, Bytes, CharsOk;
    var key, x, r := MemberParts(order, cfg, v, keys, first, depth);
    PlainInside(v, keys[0]);
    var item := v.m[keys[0]];
    var y := ValueWrites(order, cfg, item, depth);
    var chars := StringWrites(key);
    var acc' := acc[keys[0] := item];
    RestStep(acc, v.m, keys);
    var m := Member("", chars, "", Item("", y, ""));
    BareMember(chars, y);
    if |keys| == 1 {
      members := [m];
      LastMember(order, cfg, v, keys[1..], depth);
      assert Named(acc', []) == acc' && members[1..] == [];
    } else {
      TailKeys(keys);
      var rest := MembersWrite(order, cfg, v, keys[1..], false, depth, acc');
      members := [m] + rest;
      assert members[1..] == rest;
    }
    assert MembersText(members) == Quoted(key) + (":" + (x + r));
  }

  lemma BareMember(chars: seq<Char>, y: Syntax)
    ensures MemberText(Member("", chars, "", Item("", y, ""))) == StringText(chars) + (":" + ValueText(y))
    ensures CharsOk(chars) && ValueOk(y) ==> MemberOk(Member("", chars, "", Item("", y, "")))
  {
    hide ValueText, StringText, ValueOk, CharsOk;
    BareItem(y);
  }

  lemma TailKeys(keys: seq<Key>)
    requires keys != [] && forall i, j :: 0 <= i < j < |keys| ==> keys[i] != keys[j]
    ensures forall i, j :: 0 <= i < j < |keys[1..]| ==> keys[1..][i] != keys[1..][j]
    ensures forall k :: k in keys[1..] ==> k in keys
  {
    forall a, b | 0 <= a < b < |keys[1..]| ensures keys[1..][a] != keys[1..][b] {
      assert keys[a + 1] != keys[b + 1];
    }
  }

  lemma LastMember(order: Order, cfg: Config, v: Lua, keys: seq<Key>, depth: nat)
    requires v.Table? && keys == []
    ensures Members(order, cfg, v, keys, false, depth) == Some("}")
  {
  }

  // ---------- whole texts ----------

  ghost predicate NoNul(t: string) { forall i :: 0 <= i < |t| ==> t[i] != '\0' }

  lemma {:induction false} EscapedNoNul(s: string)
    ensures NoNul(Escaped(s))
  {
    if s != "" {
      EscapedNoNul(s[1..]);
      assert NoNul(Escape(s[0]));
    }
  }

  lemma {:induction false} DigitsNoNul(n: nat)
    ensures NoNul(Digits(n))
    decreases n
  {
    if n >= 10 {
      DigitsNoNul(n / 10);
    }
  }

  lemma KeyNoNul(k: Key)
    requires KeyText(k).Some?
    ensures NoNul(KeyText(k).value)
  {
    match k
    case KNum(n) => DigitsNoNul(if n < 0 then -n else n);
    case KStr(s) => EscapedNoNul(s);
  }

  /** No text that is written has a NUL, so none is cut short when it is read. */
  lemma {:induction false} EncodeNoNul(order: Order, cfg: Config, v: Lua, depth: nat)
    requires Encode(order, cfg, v, depth).Some?
    ensures NoNul(Encode(order, cfg, v, depth).value)
    decreases v, 1, 0
  {
    match v
    case Num(n) => DigitsNoNul(if n < 0 then -n else n);
    case Str(s) => EscapedNoNul(s);
    case Table(m) =>
      var keys := order(m);
      if AllIndices(keys) && !Sparse(cfg, keys) {
        ElementsNoNul(order, cfg, v, 1, Top(keys), depth + 1);
      } else {
        MembersNoNul(order, cfg, v, keys, true, depth + 1);
      }
    case _ =>
  }

  lemma {:induction false} ElementsNoNul(order: Order, cfg: Config, v: Lua, i: nat, n: nat, depth: nat)
    requires v.Table? && Elements(order, cfg, v, i, n, depth).Some?
    ensures NoNul(Elements(order, cfg, v, i, n, depth).value)
    decreases v, 0, if i <= n then n - i + 1 else 0
  {
    if i <= n {
      if KNum(i) in v.m {
        EncodeNoNul(order, cfg, v.m[KNum(i)], depth);
      }
      ElementsNoNul(order, cfg, v, i + 1, n, depth);
    }
  }

  lemma {:induction false} MembersNoNul(order: Order, cfg: Config, v: Lua, keys: seq<Key>, first: bool, depth: nat)
    requires v.Table? && Members(order, cfg, v, keys, first, depth).Some?
    ensures NoNul(Members(order, cfg, v, keys, first, depth).value)
    decreases v, 0, |keys| + 1
  {
    if keys != [] {
      KeyNoNul(keys[0]);
      if keys[0] in v.m {
        EncodeNoNul(order, cfg, v.m[keys[0]], depth);
      }
      MembersNoNul(order, cfg, v, keys[1..], false, depth);
    }
  }

  /** Every plain value that does not nest too deep is encoded, and its text decoded to the value again,
    in whatever order the keys of its tables are listed; one that nests too deep is not encoded. */
  lemma RoundTrip(order: Order, cfg: Config, v: Lua)
    requires Enumerates(order) && Plain(v)
    ensures Encode(order, cfg, v, 0).Some? <==> NestsWithin(v, cfg.maxDepth)
    ensures NestsWithin(v, cfg.maxDepth) ==> Decode(Encode(order, cfg, v, 0).value) == Some(Norm(v))
  {
    hide Enumerates, Plain, NestsWithin, Encode, Decode;
    EncodesIff(order, cfg, v, 0);
    if NestsWithin(v, cfg.maxDepth) {
      var y := ValueWrites(order, cfg, v, 0);
      BareItem(y);
      ReadsJson(Item("", y, ""));
    }
  }
}
