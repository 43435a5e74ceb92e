/** JSON texts and what they stand for, by RFC 8259, for numbers that are integers. */
module JsonGrammar {
  import opened Tasks
  import opened JsonText
  import opened JsonModel

  // ---------- strings: section 7 ----------

  /** A character of a string as it is written: as itself, as a backslash and a letter, or by its code unit or units. */
  datatype Char = Itself(c: char) | Short(c: char) | Unit(hex: string) | Pair(high: string, low: string)

  /** What a backslash and a letter stand for. */
  ghost function ShortMeans(c: char): (r: Option<int>)
    ensures r.Some? ==> 0 <= r.value < 0x80
  {
    match c
    case '"' => Some(0x22)
    case '\\' => Some(0x5C)
    case '/' => Some(0x2F)
    case 'b' => Some(0x08)
    case 'f' => Some(0x0C)
    case 'n' => Some(0x0A)
    case 'r' => Some(0x0D)
    case 't' => Some(0x09)
    case _ => None
  }

  ghost predicate HexLetter(c: char) { '0' <= c <= '9' || 'a' <= c <= 'f' || 'A' <= c <= 'F' }

  ghost function HexMeans(c: char): (n: int)
    ensures HexLetter(c) ==> 0 <= n < 16
  {
    if '0' <= c <= '9' then c as int - 48 else if 'a' <= c <= 'f' then c as int - 87 else c as int - 55
  }

  /** Four digits to the base 16, most significant first. */
  ghost predicate IsUnit(hex: string) { |hex| == 4 && forall i :: 0 <= i < 4 ==> HexLetter(hex[i]) }

  ghost function UnitMeans(hex: string): int
    requires IsUnit(hex)
  {
    ((HexMeans(hex[0]) * 16 + HexMeans(hex[1])) * 16 + HexMeans(hex[2])) * 16 + HexMeans(hex[3])
  }

  ghost predicate CharOk(ch: Char) {
    match ch
    case Itself(c) => c as int >= 0x20 && c as int != 0x22 && c as int != 0x5C
    case Short(c) => ShortMeans(c).Some?
    case Unit(hex) => IsUnit(hex) && !(0xD800 <= UnitMeans(hex) < 0xE000)
    case Pair(high, low) => IsUnit(high) && IsUnit(low) && 0xD800 <= UnitMeans(high) < 0xDC00 <= UnitMeans(low) < 0xE000
  }

  /** The code point of an escape by code units. */
  ghost function CodePoint(ch: Char): (cp: nat)
    requires CharOk(ch) && (ch.Unit? || ch.Pair?)
    ensures Scalar(cp)
  {
    if ch.Unit? then UnitMeans(ch.hex) else 0x10000 + (UnitMeans(ch.high) - 0xD800) * 0x400 + (UnitMeans(ch.low) - 0xDC00)
  }

  /** The bytes of a character; of a code point, its UTF-8 form (see Utf8IsRfc3629). */
  ghost function Denoted(ch: Char): string {
    match ch
    case Itself(c) => [c]
    case Short(c) => if ShortMeans(c).Some? then [ShortMeans(c).value as char] else ""
    case Unit(_) => if CharOk(ch) then Utf8(CodePoint(ch)) else ""
    case Pair(_, _) => if CharOk(ch) then Utf8(CodePoint(ch)) else ""
  }

  ghost function CharText(ch: Char): string {
    match ch
    case Itself(c) => [c]
    case Short(c) => ['\\', c]
    case Unit(hex) => "\\u" + hex
    case Pair(high, low) => "\\u" + high + "\\u" + low
  }

  ghost function CharsText(chars: seq<Char>): string { if chars == [] then "" else CharText(chars[0]) + CharsText(chars[1..]) }

  ghost function Bytes(chars: seq<Char>): string { if chars == [] then "" else Denoted(chars[0]) + Bytes(chars[1..]) }

  ghost predicate CharsOk(chars: seq<Char>) { forall ch :: ch in chars ==> CharOk(ch) }

  // ---------- values: sections 2 to 6 ----------

  datatype Syntax =
    | SNull | STrue | SFalse
    | SNum(minus: bool, digits: string)
    | SStr(chars: seq<Char>)
    | SArr(items: seq<Item>, blank: string)
    | SObj(members: seq<Member>, blank: string)

  /** A value between white space. */
  datatype Item = Item(before: string, value: Syntax, after: string)

  datatype Member = Member(lead: string, key: seq<Char>, mid: string, item: Item)

  ghost predicate White(s: string) { forall i :: 0 <= i < |s| ==> s[i] as int == 0x20 || s[i] as int == 0x09 || s[i] as int == 0x0A || s[i] as int == 0x0D }

  ghost predicate Decimals(s: string) { forall i :: 0 <= i < |s| ==> '0' <= s[i] <= '9' }

  /** The number that decimal digits stand for. */
  ghost function Value10(s: string): (n: nat)
    requires Decimals(s)
  {
    if s == "" then 0 else Value10(s[..|s| - 1]) * 10 + (s[|s| - 1] as int - '0' as int)
  }

  ghost function StringText(chars: seq<Char>): string { "\"" + CharsText(chars) + "\"" }

  ghost function ValueText(y: Syntax): string {
    match y
    case SNull => "null"
    case STrue => "true"
    case SFalse => "false"
    case SNum(minus, digits) => (if minus then "-" else "") + digits
    case SStr(chars) => StringText(chars)
    case SArr(items, blank) => "[" + if items == [] then blank + "]" else ItemsText(items)
    case SObj(members, blank) => "{" + if members == [] then blank + "}" else MembersText(members)
  }

  ghost function ItemText(it: Item): string { it.before + ValueText(it.value) + it.after }

  /** The elements of an array, with commas between them, and the bracket. */
  ghost function ItemsText(items: seq<Item>): string
    requires items != []
  {
    ItemText(items[0]) + if |items| == 1 then "]" else "," + ItemsText(items[1..])
  }

  ghost function MemberText(m: Member): string { m.lead + StringText(m.key) + m.mid + ":" + ItemText(m.item) }

  ghost function MembersText(members: seq<Member>): string
    requires members != []
  {
    MemberText(members[0]) + if |members| == 1 then "}" else "," + MembersText(members[1..])
  }

  ghost predicate ValueOk(y: Syntax) {
    match y
    case SNum(_, digits) =>
      digits != "" && Decimals(digits) && (digits[0] == '0' ==> |digits| == 1) && Value10(digits) < 100000000000000
    case SStr(chars) => CharsOk(chars)
    case SArr(items, blank) => White(blank) && forall it :: it in items ==> ItemOk(it)
    case SObj(members, blank) => White(blank) && forall m :: m in members ==> MemberOk(m)
    case _ => true
  }

  ghost predicate ItemOk(it: Item) { White(it.before) && White(it.after) && ValueOk(it.value) }

  ghost predicate MemberOk(m: Member) { White(m.lead) && CharsOk(m.key) && White(m.mid) && ItemOk(m.item) }

  /** The value that a text stands for. */
  ghost function Meaning(y: Syntax): Lua
    decreases y
  {
    match y
    case SNull => Null
    case STrue => Bool(true)
    case SFalse => Bool(false)
    case SNum(minus, digits) =>
      if Decimals(digits) && Value10(digits) < 100000000000000 then Num(if minus then 0 - Value10(digits) else Value10(digits)) else Other
    case SStr(chars) => Str(Bytes(chars))
    case SArr(items, _) => Table(Listed(map[], 1, items))
    case SObj(members, _) => Table(Named(map[], members))
  }

  /** The elements are the values of the keys from `n` on. */
  ghost function Listed(m: map<Key, Lua>, n: nat, items: seq<Item>): map<Key, Lua>
    decreases items
  {
    if items == [] then m else Listed(m[KNum(n) := Meaning(items[0].value)], n + 1, items[1..])
  }

  /** The members give their keys values, one after the other. */
  ghost function Named(m: map<Key, Lua>, members: seq<Member>): map<Key, Lua>
    decreases members
  {
    if members == [] then m else Named(m[KStr(Bytes(members[0].key)) := Meaning(members[0].item.value)], members[1..])
  }
}
