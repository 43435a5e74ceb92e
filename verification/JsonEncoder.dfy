/** The encoder of lua_cjson.c, which appends to a string buffer. */
module JsonEncoder {
  import opened Tasks
  import opened JsonText
  import opened JsonModel
  import opened Strbufs

  lemma JoinedAssoc(a: Option<string>, b: Option<string>, c: Option<string>)
    ensures Joined(Joined(a, b), c) == Joined(a, Joined(b, c))
  {
    if a.Some? && b.Some? && c.Some? {
      assert (a.value + b.value) + c.value == a.value + (b.value + c.value);
    }
  }

  /** The buffer given to every number is large enough. */
  lemma DecimalFits(n: Integer)
    ensures |Decimal(n)| <= 15
  {
    DigitsFit(if n < 0 then -n else n, 14);
  }

  ghost function Ten(k: nat): nat { if k == 0 then 1 else 10 * Ten(k - 1) }

  lemma {:induction false} DigitsFit(n: nat, k: nat)
    requires k >= 1 && n < Ten(k)
    ensures |Digits(n)| <= k
  {
    if n >= 10 {
      assert k > 1;
      DigitsFit(n / 10, k - 1);
    }
  }

  class Encoder {
    const cfg: Config
    const order: Order
    const json: Strbuf
    var currentDepth: nat

    ghost predicate Valid()
      reads this, json, json.buf
    {
      json.Valid() && json.increment < 0
    }

    constructor (cfg: Config, order: Order)
      ensures Valid() && this.cfg == cfg && this.order == order && fresh(json) && fresh(json.buf)
    {
      this.cfg, this.order := cfg, order;
      json := new Strbuf(0);
      currentDepth := 0;
    }

    /** json_append_string: after the one reservation no append looks at the room left, and none has to. */
    method AppendString(s: string)
      requires Valid()
      modifies json, json.buf
      ensures Valid() && (json.buf == old(json.buf) || fresh(json.buf))
      ensures json.Text() == old(json.Text()) + Quoted(s)
    {
      hide Escaped, Escape;
      json.EnsureEmptyLength(|s| * 6 + 2);
      ghost var room, t0 := json.buf, json.Text();
      json.AppendCharUnsafe('"');
      ghost var t := json.Text();
      assert s[0..] == s;
      for i := 0 to |s|
        invariant Valid() && json.buf == room
        invariant json.EmptyLength() >= (|s| - i) * 6 + 1
        invariant json.Text() + Escaped(s[i..]) == t + Escaped(s)
      {
        EscapedStep(json.Text(), s, i);
        AppendEscaped(s[i]);
      }
      NothingEscaped(s[|s|..]);
      assert json.Text() == t + Escaped(s);
      json.AppendCharUnsafe('"');
      assert ((t0 + ['"']) + Escaped(s)) + ['"'] == t0 + Quoted(s);
    }

    /** One byte, as it is or escaped. */
    method AppendEscaped(c: char)
      requires Valid() && json.EmptyLength() >= 6
      modifies json, json.buf
      ensures Valid() && json.buf == old(json.buf) && json.Text() == old(json.Text()) + Escape(c) && 1 <= |Escape(c)| <= 6
    {
      var escape := Escape(c);
      if escape != [c] {
        json.AppendString(escape);
      } else {
        json.AppendCharUnsafe(c);
      }
    }

    lemma EscapedStep(text: string, s: string, i: nat)
      requires i < |s|
      ensures text + Escaped(s[i..]) == (text + Escape(s[i])) + Escaped(s[i + 1..])
    {
      assert s[i..][0] == s[i] && s[i..][1..] == s[i + 1..];
    }

    lemma NothingEscaped(s: string)
      requires s == ""
      ensures Escaped(s) == ""
    {
    }

    /** json_append_number. */
    method AppendNumber(n: Integer)
      requires Valid()
      modifies json, json.buf
      ensures Valid() && (json.buf == old(json.buf) || fresh(json.buf))
      ensures json.Text() == old(json.Text()) + Decimal(n)
    {
      DecimalFits(n);
      json.EnsureEmptyLength(32);
      json.AppendMemUnsafe(Decimal(n));
    }

    /** lua_array_length: the length of an array, -1 for an object; not ok for a sparse array. */
    method ArrayLength(keys: seq<Key>) returns (len: int, ok: bool)
      ensures ok <==> !(AllIndices(keys) && Sparse(cfg, keys) && !cfg.sparseConvert)
      ensures ok ==> len == if AllIndices(keys) && !Sparse(cfg, keys) then Top(keys) else -1
    {
      var max: nat, items: nat := 0, 0;
      assert keys[0..] == keys;
      for i := 0 to |keys|
        invariant items == i && AllIndices(keys[..i])
        invariant Larger(max, Top(keys[i..])) == Top(keys)
      {
        assert keys[i..][0] == keys[i] && keys[i..][1..] == keys[i + 1..];
        if keys[i].KNum? && keys[i].n != 0 && keys[i].n >= 1 {
          if keys[i].n > max {
            max := keys[i].n;
          }
          items := items + 1;
          assert keys[..i + 1] == keys[..i] + [keys[i]];
        } else {
          assert keys[i] in keys;
          return -1, true;
        }
      }
      assert keys[..|keys|] == keys;
      if cfg.sparseRatio > 0 && max > items * cfg.sparseRatio && max > cfg.sparseSafe {
        return -1, cfg.sparseConvert;
      }
      return max, true;
    }

    function Larger(a: nat, b: nat): nat { if a > b then a else b }

    /** json_encode_descend. */
    method Descend() returns (ok: bool)
      modifies `currentDepth
      ensures currentDepth == old(currentDepth) + 1 && (ok <==> currentDepth <= cfg.maxDepth)
    {
      currentDepth := currentDepth + 1;
      ok := currentDepth <= cfg.maxDepth;
    }

    method AppendArray(v: Lua, n: nat) returns (ok: bool)
      requires Valid() && v.Table?
      modifies `currentDepth, json, json.buf
      ensures Valid() && (json.buf == old(json.buf) || fresh(json.buf))
      ensures var t := Joined(Some("["), Elements(order, cfg, v, 1, n, old(currentDepth) + 1));
        && (ok <==> old(currentDepth) + 1 <= cfg.maxDepth && t.Some?)
        && (ok ==> json.Text() == old(json.Text()) + t.value && currentDepth == old(currentDepth))
      decreases v, 1
    {
      hide Elements, Encode;
      ok := Descend();
      if !ok {
        return;
      }
      ghost var whole, start := Elements(order, cfg, v, 1, n, currentDepth), json.Text();
      json.AppendChar('[');
      var comma := false;
      var i := 1;
      while i <= n
        invariant Valid() && (json.buf == old(json.buf) || fresh(json.buf)) && currentDepth == old(currentDepth) + 1
        invariant 1 <= i && (comma <==> i > 1)
        invariant Joined(Some(json.Text()), Elements(order, cfg, v, i, n, currentDepth)) == Joined(Some(start + "["), whole)
        decreases n + 1 - i
      {
        ghost var text := json.Text();
        ElementStep(v, i, n, currentDepth, text);
        ok := AppendElement(v, KNum(i), comma);
        if !ok {
          return;
        }
        comma := true;
        i := i + 1;
      }
      ElementsEnd(v, i, n, currentDepth);
      json.AppendChar(']');
      currentDepth := currentDepth - 1;
      Bracketed(start, "[", whole);
    }

    method AppendElement(v: Lua, k: Key, comma: bool) returns (ok: bool)
      requires Valid() && v.Table?
      modifies `currentDepth, json, json.buf
      ensures Valid() && (json.buf == old(json.buf) || fresh(json.buf))
      ensures var item := Entry(v, k, old(currentDepth));
        && (ok <==> item.Some?)
        && (ok ==> json.Text() == old(json.Text()) + (if comma then "," else "") + item.value && currentDepth == old(currentDepth))
      decreases v, 0, 1
    {
      hide Encode;
      if comma {
        json.AppendChar(',');
      }
      assert json.Text() == old(json.Text()) + (if comma then "," else "");
      ok := AppendEntry(v, k);
    }

    lemma Bracketed(start: string, open: string, rest: Option<string>)
      ensures Joined(Some(start + open), rest) == Joined(Some(start), Joined(Some(open), rest))
    {
      JoinedAssoc(Some(start), Some(open), rest);
    }

    lemma ElementsEnd(v: Lua, i: nat, n: nat, depth: nat)
      requires v.Table? && i > n
      ensures Elements(order, cfg, v, i, n, depth) == Some("]")
    {
    }

    ghost function Entry(v: Lua, k: Key, depth: nat): Option<string>
      requires v.Table?
    {
      if k in v.m then Encode(order, cfg, v.m[k], depth) else Some("null")
    }

    /** lua_rawgeti and json_append_data. */
    method AppendEntry(v: Lua, k: Key) returns (ok: bool)
      requires Valid() && v.Table?
      modifies `currentDepth, json, json.buf
      ensures Valid() && (json.buf == old(json.buf) || fresh(json.buf))
      ensures var t := Entry(v, k, old(currentDepth));
        (ok <==> t.Some?) && (ok ==> json.Text() == old(json.Text()) + t.value && currentDepth == old(currentDepth))
      decreases v, 0, 0
    {
      if k in v.m {
        ok := AppendData(v.m[k]);
      } else {
        json.AppendMem("null");
        ok := true;
      }
    }

    lemma ElementStep(v: Lua, i: nat, n: nat, depth: nat, text: string)
      requires v.Table? && 1 <= i <= n
      ensures Joined(Some(text), Elements(order, cfg, v, i, n, depth)) ==
        if Entry(v, KNum(i), depth).Some? then
          Joined(Some(text + (if i > 1 then "," else "") + Entry(v, KNum(i), depth).value), Elements(order, cfg, v, i + 1, n, depth))
        else None
    {
      var comma, item, rest := if i > 1 then "," else "", Entry(v, KNum(i), depth), Elements(order, cfg, v, i + 1, n, depth);
      if item.Some? && rest.Some? {
        assert text + ((comma + item.value) + rest.value) == (text + comma + item.value) + rest.value;
      }
    }

    /** The text of a value; what was appended before an error is of no use. */
    method AppendData(v: Lua) returns (ok: bool)
      requires Valid()
      modifies `currentDepth, json, json.buf
      ensures Valid() && (json.buf == old(json.buf) || fresh(json.buf))
      ensures var t := Encode(order, cfg, v, old(currentDepth));
        (ok <==> t.Some?) && (ok ==> json.Text() == old(json.Text()) + t.value && currentDepth == old(currentDepth))
      decreases v, 2
    {
      match v
      case Nil => json.AppendMem("null"); ok := true;
      case Null => json.AppendMem("null"); ok := true;
      case Bool(b) => json.AppendMem(if b then "true" else "false"); ok := true;
      case Num(n) => AppendNumber(n); ok := true;
      case Str(s) => AppendString(s); ok := true;
      case Other => ok := false;
      case Table(m) =>
        var len;
        len, ok := ArrayLength(order(m));
        if ok {
          if len >= 0 {
            ok := AppendArray(v, len);
          } else {
            ok := AppendObject(v);
          }
        }
    }

    method AppendObject(v: Lua) returns (ok: bool)
      requires Valid() && v.Table?
      modifies `currentDepth, json, json.buf
      ensures Valid() && (json.buf == old(json.buf) || fresh(json.buf))
      ensures var t := Joined(Some("{"), Members(order, cfg, v, order(v.m), true, old(currentDepth) + 1));
        && (ok <==> old(currentDepth) + 1 <= cfg.maxDepth && t.Some?)
        && (ok ==> json.Text() == old(json.Text()) + t.value && currentDepth == old(currentDepth))
      decreases v, 1
    {
      hide Members, Encode, KeyText;
      ok := Descend();
      if !ok {
        return;
      }
      var keys := order(v.m);
      ghost var whole, start := Members(order, cfg, v, keys, true, currentDepth), json.Text();
      json.AppendChar('{');
      var comma := false;
      assert keys[0..] == keys;
      for i := 0 to |keys|
        invariant Valid() && (json.buf == old(json.buf) || fresh(json.buf)) && currentDepth == old(currentDepth) + 1
        invariant comma <==> i > 0
        invariant Joined(Some(json.Text()), Members(order, cfg, v, keys[i..], i == 0, currentDepth)) == Joined(Some(start + "{"), whole)
      {
        ghost var text := json.Text();
        MemberStep(v, keys, i, currentDepth, text);
        ok := AppendMember(v, keys[i], comma);
        if !ok {
          return;
        }
        comma := true;
      }
      MembersEnd(v, keys[|keys|..], |keys| == 0, currentDepth);
      json.AppendChar('}');
      currentDepth := currentDepth - 1;
      Bracketed(start, "{", whole);
    }

    method AppendMember(v: Lua, k: Key, comma: bool) returns (ok: bool)
      requires Valid() && v.Table?
      modifies `currentDepth, json, json.buf
      ensures Valid() && (json.buf == old(json.buf) || fresh(json.buf))
      ensures var key, item := KeyText(k), Entry(v, k, old(currentDepth));
        && (ok <==> key.Some? && item.Some?)
        && (ok ==> json.Text() == old(json.Text()) + (if comma then "," else "") + (key.value + ":") + item.value && currentDepth == old(currentDepth))
      decreases v, 0, 1
    {
      hide Encode, KeyText;
      if comma {
        json.AppendChar(',');
      }
      assert json.Text() == old(json.Text()) + (if comma then "," else "");
      ok := AppendKey(k);
      if ok {
        ok := AppendEntry(v, k);
      }
    }

    lemma MembersEnd(v: Lua, keys: seq<Key>, first: bool, depth: nat)
      requires v.Table? && keys == []
      ensures Members(order, cfg, v, keys, first, depth) == Some("}")
    {
    }

    lemma MemberStep(v: Lua, keys: seq<Key>, i: nat, depth: nat, text: string)
      requires v.Table? && i < |keys|
      ensures var key, item := KeyText(keys[i]), Entry(v, keys[i], depth);
        Joined(Some(text), Members(order, cfg, v, keys[i..], i == 0, depth)) ==
        if key.Some? && item.Some? then
          Joined(Some(text + (if i > 0 then "," else "") + (key.value + ":") + item.value), Members(order, cfg, v, keys[i + 1..], false, depth))
        else None
    {
      assert keys[i..][0] == keys[i] && keys[i..][1..] == keys[i + 1..];
      var comma, key, item := if i > 0 then "," else "", KeyText(keys[i]), Entry(v, keys[i], depth);
      var rest := Members(order, cfg, v, keys[i + 1..], false, depth);
      if key.Some? && item.Some? && rest.Some? {
        MemberParts(text, comma, key.value, item.value, rest.value);
      }
    }

    lemma MemberParts(text: string, comma: string, key: string, item: string, rest: string)
      ensures text + ((((comma + key) + ":") + item) + rest) == (text + comma + (key + ":") + item) + rest
    {
    }

    method AppendKey(k: Key) returns (ok: bool)
      requires Valid()
      modifies json, json.buf
      ensures Valid() && (json.buf == old(json.buf) || fresh(json.buf))
      ensures (ok <==> KeyText(k).Some?) && (ok ==> json.Text() == old(json.Text()) + (KeyText(k).value + ":"))
    {
      match k
      case KNum(n) =>
        if -100000000000000 < n < 100000000000000 {
          json.AppendChar('"');
          AppendNumber(n);
          json.AppendMem("\":");
          ok := true;
        } else {
          ok := false;
        }
      case KStr(s) =>
        AppendString(s);
        json.AppendChar(':');
        ok := true;
      case KOther => ok := false;
    }

    /** json_encode. */
    method EncodeText(v: Lua) returns (t: Option<string>)
      requires Valid()
      modifies this, json, json.buf
      ensures Valid() && t == Encode(order, cfg, v, 0)
      ensures t.Some? ==> currentDepth == 0
    {
      currentDepth := 0;
      json.Reset();
      var ok := AppendData(v);
      assert ok ==> json.Text() == Encode(order, cfg, v, 0).value;
      t := if ok then Some(json.buf[..json.length]) else None;
    }
  }
}
