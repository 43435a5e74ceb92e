/** The tokenizer and the recursive parser of lua_cjson.c, which advance an index through the text. */
module JsonParser {
  import opened Tasks
  import opened JsonText
  import opened JsonModel
  import opened Strbufs

  class Parser {
    const data: string
    const tmp: Strbuf       // the string token read last
    var index: nat

    /** The scratch buffer can hold the whole text. */
    ghost predicate Valid()
      reads this, tmp, tmp.buf
    {
      index <= |data| && tmp.Valid() && tmp.buf.Length > |data|
    }

    constructor (data: string)
      ensures Valid() && this.data == data && index == 0 && fresh(tmp) && fresh(tmp.buf)
    {
      this.data := data;
      tmp := new Strbuf(|data|);
      index := 0;
    }

    /** json_append_unicode_escape. */
    method AppendUnicodeEscape() returns (ok: bool)
      requires Valid() && tmp.length <= index
      modifies `index, tmp, tmp.buf
      ensures Valid() && tmp.buf == old(tmp.buf)
      ensures ok <==> UnicodeEscape(data, old(index)).Some?
      ensures ok ==> var (bytes, next) := UnicodeEscape(data, old(index)).value;
        && index == next && tmp.Text() == old(tmp.Text()) + bytes
        && old(index) < index && |bytes| <= index - old(index)
      ensures !ok ==> index == old(index) && tmp.Text() == old(tmp.Text())
    {
      var unit := Hex4(data, index + 2);
      if unit.None? {
        return false;
      }
      var codepoint, length := unit.value, 6;
      if Surrogate(codepoint) {
        if !HighSurrogate(codepoint) {
          return false;
        }
        if At(data, index + 6) != '\\' || At(data, index + 7) != 'u' {
          return false;
        }
        var low := Hex4(data, index + 8);
        if low.None? || !LowSurrogate(low.value) {
          return false;
        }
        codepoint := (codepoint % 1024) * 1024 + low.value % 1024 + 0x10000;
        length := 12;
      }
      var utf8 := Utf8(codepoint);
      assert UnicodeEscape(data, index) == Some((utf8, index + length));
      EscapeShrinks(data, index);
      tmp.AppendMemUnsafe(utf8);
      index := index + length;
      ok := true;
    }

    /** json_next_string_token: the scratch buffer never holds more bytes than the text read so far. */
    method NextString() returns (ok: bool)
      requires Valid() && index < |data| && data[index] == '"'
      modifies `index, tmp, tmp.buf
      ensures Valid() && tmp.buf == old(tmp.buf)
      ensures ok <==> Unquote(data, old(index) + 1).Some?
      ensures ok ==> Unquote(data, old(index) + 1) == Some((tmp.Text(), index)) && tmp.length < index - old(index)
      ensures old(index) <= index
    {
      hide UnicodeEscape;
      index := index + 1;
      tmp.Reset();
      ghost var start, whole := index, Unquote(data, index);
      PrependEmpty(whole);
      while At(data, index) != '"'
        invariant Valid() && tmp.buf == old(tmp.buf) && start <= index
        invariant tmp.length <= index - start
        invariant whole == Prepend(tmp.Text(), Unquote(data, index))
        decreases |data| - index
      {
        var ch := At(data, index);
        if ch == '\0' {
          return false;
        }
        ghost var text, i := tmp.Text(), index;
        if ch == '\\' {
          if At(data, index + 1) == 'u' {
            ok := AppendUnicodeEscape();
            if !ok {
              return;
            }
            PrependTwice(text, UnicodeEscape(data, i).value.0, Unquote(data, index));
            continue;
          }
          var e := Unescaped(At(data, index + 1));
          if e.None? {
            return false;
          }
          ch := e.value;
          index := index + 1;
        }
        tmp.AppendCharUnsafe(ch);
        index := index + 1;
        PrependTwice(text, [ch], Unquote(data, index));
      }
      PrependEnd(tmp.Text(), index + 1);
      index := index + 1;
      tmp.EnsureNull();
      ok := true;
    }

    lemma PrependTwice(a: string, b: string, r: Option<(string, nat)>)
      ensures Prepend(a, Prepend(b, r)) == Prepend(a + b, r)
    {
      if r.Some? {
        assert a + (b + r.value.0) == (a + b) + r.value.0;
      }
    }

    lemma PrependEmpty(r: Option<(string, nat)>)
      ensures Prepend("", r) == r
    {
      if r.Some? {
        assert "" + r.value.0 == r.value.0;
      }
    }

    lemma PrependEnd(s: string, i: nat)
      ensures Prepend(s, Some(("", i))) == Some((s, i))
    {
      assert s + "" == s;
    }

    /** json_next_token. */
    method NextToken() returns (tok: Token)
      requires Valid()
      modifies `index, tmp, tmp.buf
      ensures Valid() && tmp.buf == old(tmp.buf)
      ensures tok == Lex(data, old(index)).0 && (!tok.Error? ==> index == Lex(data, old(index)).1)
      ensures old(index) <= index
    {
      hide Unquote;
      SkipSpace();
      var ch := At(data, index);
      if ch == '\0' {
        return End;
      }
      tok := Single(ch);
      if !tok.Error? {
        index := index + 1;
        return;
      }
      if ch == '"' {
        var ok := NextString();
        return if ok then StrTok(tmp.buf[..tmp.length]) else Error;
      } else if ch == '-' || Digit(ch) {
        var (t, next) := LexNumber(data, index);
        index := next;
        return t;
      } else if Starts(data, index, "true") {
        index := index + 4;
        return BoolTok(true);
      } else if Starts(data, index, "false") {
        index := index + 5;
        return BoolTok(false);
      } else if Starts(data, index, "null") {
        index := index + 4;
        return NullTok;
      }
      return Error;
    }

    /** The single-character tokens of ch2token. */
    function Single(c: char): Token {
      match c
      case '{' => ObjBegin
      case '}' => ObjEnd
      case '[' => ArrBegin
      case ']' => ArrEnd
      case ',' => Comma
      case ':' => Colon
      case _ => Error
    }

    method SkipSpace()
      requires Valid()
      modifies `index
      ensures Valid() && index == Skip(data, old(index)) && Skip(data, index) == index
    {
      while index < |data| && Space(data[index])
        invariant Valid() && Skip(data, index) == Skip(data, old(index))
        decreases |data| - index
      {
        index := index + 1;
      }
    }

    /** What was read, as the index tells. */
    ghost predicate Read(p: Parsed, r: Option<Lua>)
      reads `index
    {
      if p.Parsed? then r == Some(p.v) && index == p.next else r == None
    }

    /** json_process_value, for a value that begins with the token `tok`. */
    method ProcessValue(tok: Token) returns (r: Option<Lua>)
      requires Valid()
      modifies `index, tmp, tmp.buf
      ensures Valid() && tmp.buf == old(tmp.buf) && Read(ParseValue(data, tok, old(index)), r)
      decreases |data| - index, 2
    {
      hide Lex, ParseElements, ParseMembers;
      match tok
      case StrTok(s) => r := Some(Str(s));
      case NumTok(n) => r := Some(Num(n));
      case BoolTok(b) => r := Some(Bool(b));
      case NullTok => r := Some(Null);
      case ObjBegin => r := ParseObject();
      case ArrBegin => r := ParseArray();
      case _ => r := None;
    }

    /** json_parse_array_context. */
    method ParseArray() returns (r: Option<Lua>)
      requires Valid()
      modifies `index, tmp, tmp.buf
      ensures Valid() && tmp.buf == old(tmp.buf) && Read(ParseValue(data, ArrBegin, old(index)), r)
      decreases |data| - index, 1
    {
      hide Lex;
      ghost var start := index;
      var tok := NextToken();
      if tok.ArrEnd? {
        return Some(Table(map[]));
      }
      var m: map<Key, Lua> := map[];
      var i := 1;
      if tok.End? || tok.Error? {
        return None;
      }
      ghost var whole := ParseElements(data, tok, index, 1, map[]);
      while true
        invariant Valid() && tmp.buf == old(tmp.buf) && start < index && i >= 1
        invariant whole == ParseElements(data, tok, index, i, m)
        decreases |data| - index
      {
        ghost var before := index;
        var item := ProcessValue(tok);
        if item.None? {
          return None;
        }
        m := m[KNum(i) := item.value];
        tok := NextToken();
        if tok.ArrEnd? {
          return Some(Table(m));
        }
        if !tok.Comma? {
          return None;
        }
        ErrorElement(Lex(data, index).1, i + 1, m);
        tok := NextToken();
        if tok.Error? {
          return None;
        }
        i := i + 1;
      }
    }

    lemma ErrorElement(i: nat, n: nat, m: map<Key, Lua>)
      requires i <= |data|
      ensures ParseElements(data, Error, i, n, m).Failure?
    {
    }

    /** json_parse_object_context. */
    method ParseObject() returns (r: Option<Lua>)
      requires Valid()
      modifies `index, tmp, tmp.buf
      ensures Valid() && tmp.buf == old(tmp.buf) && Read(ParseValue(data, ObjBegin, old(index)), r)
      decreases |data| - index, 1
    {
      hide Lex;
      ghost var start := index;
      var tok := NextToken();
      if tok.ObjEnd? {
        return Some(Table(map[]));
      }
      if !tok.StrTok? {
        return None;
      }
      var m: map<Key, Lua> := map[];
      ghost var whole := ParseMembers(data, tok, index, map[]);
      while true
        invariant Valid() && tmp.buf == old(tmp.buf) && start < index
        invariant whole == ParseMembers(data, tok, index, m)
        decreases |data| - index
      {
        if !tok.StrTok? {
          return None;
        }
        var key := tok.s;
        tok := NextToken();
        if !tok.Colon? {
          return None;
        }
        tok := NextToken();
        if tok.Error? {
          return None;
        }
        var item := ProcessValue(tok);
        if item.None? {
          return None;
        }
        m := m[KStr(key) := item.value];
        tok := NextToken();
        if tok.ObjEnd? {
          return Some(Table(m));
        }
        if !tok.Comma? {
          return None;
        }
        tok := NextToken();
        if tok.Error? {
          return None;
        }
      }
    }
  }

  /** json_decode. */
  method DecodeText(text: string) returns (v: Option<Lua>)
    ensures v == Decode(text)
  {
    if |text| >= 2 && (text[0] == '\0' || text[1] == '\0') {
      return None;
    }
    hide Lex, ParseValue;
    var json := new Parser(text);
    var tok := json.NextToken();
    EndIsNoValue(text, tok, Lex(text, 0).1);
    if tok.Error? {
      return None;
    }
    v := json.ProcessValue(tok);
    if v.Some? {
      tok := json.NextToken();
      if !tok.End? {
        v := None;
      }
    }
  }

  lemma EndIsNoValue(data: string, tok: Token, i: nat)
    requires i <= |data|
    ensures tok.Error? ==> ParseValue(data, tok, i).Failure?
  {
  }
}
