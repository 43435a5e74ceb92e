/** What lua_cjson.c writes for a Lua value, and which value it reads from a text. */
module JsonModel {
  import opened Tasks
  import opened JsonText

  datatype Key = KNum(n: int) | KStr(s: string) | KOther

  /** The numbers that %.14g prints as plain integers. */
  type Integer = n: int | -100000000000000 < n < 100000000000000

  /** Numbers are integers; `Null` is the light userdata NULL, `Other` a value of any type that JSON lacks. */
  datatype Lua = Nil | Null | Bool(b: bool) | Num(n: Integer) | Str(s: string) | Table(m: map<Key, Lua>) | Other

  /** The order in which lua_next lists the keys of a table. */
  type Order = map<Key, Lua> -> seq<Key>

  ghost predicate Lists(keys: seq<Key>, m: map<Key, Lua>) {
    (forall k :: k in keys <==> k in m) && forall i, j :: 0 <= i < j < |keys| ==> keys[i] != keys[j]
  }

  ghost predicate Enumerates(order: Order) { forall m: map<Key, Lua> :: Lists(order(m), m) }

  datatype Config = Config(sparseConvert: bool, sparseRatio: nat, sparseSafe: nat, maxDepth: nat)

  // ---------- encoding ----------

  function Digits(n: nat): string { if n < 10 then [HexDigit(n)] else Digits(n / 10) + [HexDigit(n % 10)] }

  /** %.14g of an integer of at most 14 digits, with its sign. */
  function Decimal(n: int): string { if n < 0 then "-" + Digits(-n) else Digits(n) }

  ghost predicate Index(k: Key) { k.KNum? && k.n >= 1 }

  ghost function Top(keys: seq<Key>): nat {
    if keys == [] then 0 else
      var rest := Top(keys[1..]);
      if Index(keys[0]) && keys[0].n > rest then keys[0].n else rest
  }

  ghost predicate Sparse(cfg: Config, keys: seq<Key>) {
    cfg.sparseRatio > 0 && Top(keys) > |keys| * cfg.sparseRatio && Top(keys) > cfg.sparseSafe
  }

  ghost predicate AllIndices(keys: seq<Key>) { forall k :: k in keys ==> Index(k) }

  ghost function Joined(a: Option<string>, b: Option<string>): Option<string> {
    if a.Some? && b.Some? then Some(a.value + b.value) else None
  }

  /** The text of `v`, nested in `depth` tables; none if it cannot be encoded. */
  ghost function Encode(order: Order, cfg: Config, v: Lua, depth: nat): Option<string>
    decreases v, 1, 0
  {
    match v
    case Nil => Some("null")
    case Null => Some("null")
    case Bool(b) => Some(if b then "true" else "false")
    case Num(n) => Some(Decimal(n))
    case Str(s) => Some(Quoted(s))
    case Other => None
    case Table(m) =>
      var keys := order(m);
      if AllIndices(keys) && Sparse(cfg, keys) && !cfg.sparseConvert then None
      else if depth + 1 > cfg.maxDepth then None
      else if AllIndices(keys) && !Sparse(cfg, keys) then
        Joined(Some("["), Elements(order, cfg, v, 1, Top(keys), depth + 1))
      else Joined(Some("{"), Members(order, cfg, v, keys, true, depth + 1))
  }

  /** The elements of an array from `i` to `n`, and the bracket behind them. */
  ghost function Elements(order: Order, cfg: Config, v: Lua, i: nat, n: nat, depth: nat): Option<string>
    requires v.Table?
    decreases v, 0, if i <= n then n - i + 1 else 0
  {
    if i > n then Some("]")
    else
      var item := if KNum(i) in v.m then Encode(order, cfg, v.m[KNum(i)], depth) else Some("null");
      Joined(Joined(Some(if i > 1 then "," else ""), item), Elements(order, cfg, v, i + 1, n, depth))
  }

  ghost function KeyText(k: Key): Option<string> {
    match k
    case KNum(n) => if -100000000000000 < n < 100000000000000 then Some("\"" + Decimal(n) + "\"") else None
    case KStr(s) => Some(Quoted(s))
    case KOther => None
  }

  /** The members of an object with the keys `keys`, and the brace behind them. */
  ghost function Members(order: Order, cfg: Config, v: Lua, keys: seq<Key>, first: bool, depth: nat): Option<string>
    requires v.Table?
    decreases v, 0, |keys| + 1
  {
    if keys == [] then Some("}")
    else
      var key := Joined(Joined(Some(if first then "" else ","), KeyText(keys[0])), Some(":"));
      var item := if keys[0] in v.m then Encode(order, cfg, v.m[keys[0]], depth) else Some("null");
      Joined(Joined(key, item), Members(order, cfg, v, keys[1..], false, depth))
  }

  // ---------- tokens ----------

  datatype Token = ObjBegin | ObjEnd | ArrBegin | ArrEnd | StrTok(s: string) | NumTok(n: Integer) | BoolTok(b: bool) | NullTok
                 | Colon | Comma | End | Error

  predicate Space(c: char) { c == ' ' || c == '\t' || c == '\n' || c == '\r' }

  function Skip(data: string, i: nat): (j: nat)
    requires i <= |data|
    ensures i <= j <= |data|
    decreases |data| - i
  {
    if i < |data| && Space(data[i]) then Skip(data, i + 1) else i
  }

  predicate Starts(data: string, i: nat, word: string) { i + |word| <= |data| && data[i..i + |word|] == word }

  predicate Digit(c: char) { '0' <= c <= '9' }

  /** The decimal number whose digits go on at `i`, after those that make up `n`, and the index behind it. */
  function Number(data: string, i: nat, n: nat): (r: (nat, nat))
    requires i <= |data|
    ensures i <= r.1 <= |data|
    decreases |data| - i
  {
    if i < |data| && Digit(data[i]) then Number(data, i + 1, n * 10 + (data[i] as int - '0' as int)) else (n, i)
  }

  /** The forms that strtod reads beyond decimal integers start like this behind the digits. */
  predicate Beyond(c: char) { c == '.' || c == 'e' || c == 'E' || c == 'x' || c == 'X' }

  /** The token at `i`, and the index behind it. */
  function Lex(data: string, start: nat): (r: (Token, nat))
    requires start <= |data|
    ensures start <= r.1 <= |data| && (!r.0.End? && !r.0.Error? ==> start < r.1)
  {
    var i := Skip(data, start);
    var c := At(data, i);
    if c == '\0' then (End, i)
    else if c == '{' then (ObjBegin, i + 1)
    else if c == '}' then (ObjEnd, i + 1)
    else if c == '[' then (ArrBegin, i + 1)
    else if c == ']' then (ArrEnd, i + 1)
    else if c == ',' then (Comma, i + 1)
    else if c == ':' then (Colon, i + 1)
    else if c == '"' then
      var r := Unquote(data, i + 1);
      if r.None? then (Error, i) else
        assert i < r.value.1 <= |data| by { UnquoteBound(data, i + 1); }
        (StrTok(r.value.0), r.value.1)
    else if c == '-' || Digit(c) then LexNumber(data, i)
    else if Starts(data, i, "true") then (BoolTok(true), i + 4)
    else if Starts(data, i, "false") then (BoolTok(false), i + 5)
    else if Starts(data, i, "null") then (NullTok, i + 4)
    else (Error, i)
  }

  function LexNumber(data: string, i: nat): (r: (Token, nat))
    requires i < |data| && (data[i] == '-' || Digit(data[i]))
    ensures i <= r.1 <= |data| && (!r.0.End? && !r.0.Error? ==> i < r.1)
  {
    var j := if data[i] == '-' then i + 1 else i;
    var (n: int, k) := Number(data, j, 0);
    if k == j || Beyond(At(data, k)) || n >= 100000000000000 then (Error, i)
    else (NumTok(if data[i] == '-' then -n else n), k)
  }

  /** An unquoted string ends within the text. */
  lemma UnquoteBound(data: string, i: nat)
    requires Unquote(data, i).Some?
    ensures i < Unquote(data, i).value.1 <= |data|
    decreases |data| - i
  {
    var c := At(data, i);
    if c != '"' {
      if c == '\\' && At(data, i + 1) == 'u' {
        EscapeShrinks(data, i);
        UnquoteBound(data, UnicodeEscape(data, i).value.1);
      } else if c == '\\' {
        UnquoteBound(data, i + 2);
      } else {
        UnquoteBound(data, i + 1);
      }
    }
  }

  // ---------- parsing ----------

  /** A value, and the index behind it. */
  datatype Parsed = Parsed(v: Lua, next: nat) | Failure

  function ParseValue(data: string, tok: Token, i: nat): (r: Parsed)
    requires i <= |data|
    ensures r.Parsed? ==> i <= r.next <= |data|
    decreases |data| - i, 2
  {
    match tok
    case StrTok(s) => Parsed(Str(s), i)
    case NumTok(n) => Parsed(Num(n), i)
    case BoolTok(b) => Parsed(Bool(b), i)
    case NullTok => Parsed(Null, i)
    case ObjBegin =>
      var (t, j) := Lex(data, i);
      if t.ObjEnd? then Parsed(Table(map[]), j) else if !t.StrTok? then Failure else ParseMembers(data, t, j, map[])
    case ArrBegin =>
      var (t, j) := Lex(data, i);
      if t.ArrEnd? then Parsed(Table(map[]), j) else if t.End? || t.Error? then Failure else ParseElements(data, t, j, 1, map[])
    case _ => Failure
  }

  function ParseElements(data: string, tok: Token, i: nat, n: nat, m: map<Key, Lua>): (r: Parsed)
    requires i <= |data|
    ensures r.Parsed? ==> i <= r.next <= |data|
    decreases |data| - i, 3
  {
    var item := ParseValue(data, tok, i);
    if item.Failure? then Failure
    else
      var m' := m[KNum(n) := item.v];
      var (t, j) := Lex(data, item.next);
      if t.ArrEnd? then Parsed(Table(m'), j)
      else if !t.Comma? then Failure
      else
        var (u, k) := Lex(data, j);
        ParseElements(data, u, k, n + 1, m')
  }

  function ParseMembers(data: string, tok: Token, i: nat, m: map<Key, Lua>): (r: Parsed)
    requires i <= |data|
    ensures r.Parsed? ==> i <= r.next <= |data|
    decreases |data| - i, 3
  {
    if !tok.StrTok? then Failure
    else
      var (t, j) := Lex(data, i);
      if !t.Colon? then Failure
      else
        var (u, k) := Lex(data, j);
        var item := ParseValue(data, u, k);
        if item.Failure? then Failure
        else
          var m' := m[KStr(tok.s) := item.v];
          var (w, l) := Lex(data, item.next);
          if w.ObjEnd? then Parsed(Table(m'), l)
          else if !w.Comma? then Failure
          else
            var (x, n) := Lex(data, l);
            ParseMembers(data, x, n, m')
  }

  /** The value of a whole text. */
  function Decode(data: string): Option<Lua> {
    if |data| >= 2 && (data[0] == '\0' || data[1] == '\0') then None
    else
      var (t, i) := Lex(data, 0);
      var r := ParseValue(data, t, i);
      if r.Failure? then None
      else if Lex(data, r.next).0.End? then Some(r.v) else None
  }
}
