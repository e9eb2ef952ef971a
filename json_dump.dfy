/** TinyJson's serialiser: the dumpJson overloads for null, bool, int64,
    string, array and object, and Json::dump. The text each one appends is
    defined by a function; the methods append it to `out` step by step as
    the C++ code does and are proved to append exactly that text. */
module JsonDump {
  import opened JsonValues
  import JsonSpec
  import opened SeqUtil

  /* -------------------- the text, as functions -------------------- */

  /** A lower-case hex digit, as printf's %x writes it. */
  function HexDigitText(d: nat): (c: Byte)
    requires d < 16
    ensures JsonSpec.IsHex(c) && JsonSpec.HexDigit(c) == d
  {
    if d < 10 then ('0' as int + d) as char else ('a' as int + d - 10) as char
  }

  /** The escape dumpJson(string) writes for one byte and the index of the
      byte after the ones it consumed. */
  datatype Step = Step(text: seq<Byte>, next: nat)

  /** One turn of dumpJson(string)'s loop at index k. */
  function EscapeStep(value: seq<Byte>, k: nat): (r: Step)
    requires k < |value|
    ensures k < r.next <= |value|
  {
    var ch := value[k];
    if ch == '\\' then Step("\\\\", k + 1)
    else if ch == '"' then Step("\\\"", k + 1)
    else if ch == JsonSpec.BACKSPACE then Step("\\b", k + 1)
    else if ch == JsonSpec.FORMFEED then Step("\\f", k + 1)
    else if ch == '\n' then Step("\\n", k + 1)
    else if ch == '\r' then Step("\\r", k + 1)
    else if ch == '\t' then Step("\\t", k + 1)
    else if ch as int <= 0x1f then
      Step("\\u00" + [HexDigitText(ch as int / 16), HexDigitText(ch as int % 16)], k + 1)
    else if ch as int == 0xE2 && JsonSpec.At(value, k + 1) as int == 0x80 && JsonSpec.At(value, k + 2) as int == 0xA8 then
      Step("\\u2028", k + 3)
    else if ch as int == 0xE2 && JsonSpec.At(value, k + 1) as int == 0x80 && JsonSpec.At(value, k + 2) as int == 0xA9 then
      Step("\\u2029", k + 3)
    else Step([ch], k + 1)
  }

  /** What dumpJson(string) writes for the bytes from index k on. */
  function EscapedFrom(value: seq<Byte>, k: nat): seq<Byte>
    requires k <= |value|
    decreases |value| - k
  {
    if k == |value| then []
    else
      var st := EscapeStep(value, k);
      st.text + EscapedFrom(value, st.next)
  }

  /** dumpJson(string): the escaped bytes between double quotes. */
  function StringText(value: seq<Byte>): seq<Byte>
  {
    ['"'] + EscapedFrom(value, 0) + ['"']
  }

  /** The decimal digits of n, most significant first, with no leading
      zero. */
  function Digits(n: nat): (r: seq<Byte>)
    ensures |r| > 0
    ensures forall k :: 0 <= k < |r| ==> JsonSpec.IsDigit(r[k])
  {
    if n < 10 then [('0' as int + n) as char]
    else Digits(n / 10) + [('0' as int + n % 10) as char]
  }

  /** dumpJson(int64_t): snprintf with PRId64. */
  function IntText(x: Int64): seq<Byte>
  {
    if x < 0 then ['-'] + Digits(-(x as int)) else Digits(x)
  }

  /** What dumpJson writes between two items or entries. */
  const SEPARATOR: seq<Byte> := ", "

  /** dumpJson(bool) */
  function BoolText(b: bool): seq<Byte>
  {
    if b then "true" else "false"
  }

  /** Json::dump for a value holding no double. */
  function DumpText(v: Json): seq<Byte>
    requires NoDouble(v)
    decreases v, 1
  {
    match v
    case Null => "null"
    case Int(x) => IntText(x)
    case Bool(b) => BoolText(b)
    case Str(s) => StringText(s)
    case Arr(items) => "[" + ItemsText(items) + "]"
    case Obj(ms) => "{" + MembersText(ms) + "}"
  }

  /** The items of dumpJson(array), separated by ", ". */
  function ItemsText(items: seq<Json>): seq<Byte>
    requires forall p {:trigger NoDouble(items[p])} :: 0 <= p < |items| ==> NoDouble(items[p])
    decreases items, 0
  {
    if items == [] then []
    else
      var n := |items| - 1;
      ItemsText(items[..n]) + (if n > 0 then SEPARATOR else []) + DumpText(items[n])
  }

  /** The entries of dumpJson(object), each `"key": value`, separated by
      ", ", in the map's order. */
  function MembersText(ms: seq<Member>): seq<Byte>
    requires forall p {:trigger NoDouble(ms[p].value)} :: 0 <= p < |ms| ==> NoDouble(ms[p].value)
    decreases ms, 0
  {
    if ms == [] then []
    else
      var n := |ms| - 1;
      assert ms[n].value < ms[n];
      MembersText(ms[..n]) + (if n > 0 then SEPARATOR else []) + EntryText(ms[n])
  }

  /** One entry of dumpJson(object): `"key": value`. */
  function EntryText(m: Member): seq<Byte>
    requires NoDouble(m.value)
    decreases m, 0
  {
    StringText(m.key) + ": " + DumpText(m.value)
  }

  /** The text of the first k + 1 entries extends that of the first k. */
  lemma MembersTextSnoc(ms: seq<Member>, k: nat)
    requires k < |ms|
    requires forall p {:trigger NoDouble(ms[p].value)} :: 0 <= p < |ms| ==> NoDouble(ms[p].value)
    ensures MembersText(ms[..k + 1]) ==
      MembersText(ms[..k]) + (if k > 0 then SEPARATOR else []) + EntryText(ms[k])
  {
    assert ms[..k + 1][..k] == ms[..k];
  }

  /* -------------------- the dumpJson overloads -------------------- */

  /** dumpJson(const std::string&, out) */
  method DumpString(value: seq<Byte>, out: seq<Byte>) returns (res: seq<Byte>)
    ensures res == out + StringText(value)
  {
    res := out + ['"'];
    var i := 0;
    while i < |value|
      invariant i <= |value|
      invariant res + EscapedFrom(value, i) == out + ['"'] + EscapedFrom(value, 0)
      decreases |value| - i
    {
      ghost var k := i;
      var ch := value[i];
      var text: seq<Byte>;
      if ch == '\\' {
        text := "\\\\";
      } else if ch == '"' {
        text := "\\\"";
      } else if ch == JsonSpec.BACKSPACE {
        text := "\\b";
      } else if ch == JsonSpec.FORMFEED {
        text := "\\f";
      } else if ch == '\n' {
        text := "\\n";
      } else if ch == '\r' {
        text := "\\r";
      } else if ch == '\t' {
        text := "\\t";
      } else if ch as int <= 0x1f {
        text := "\\u00" + [HexDigitText(ch as int / 16), HexDigitText(ch as int % 16)];
      } else if ch as int == 0xE2 && JsonSpec.At(value, i + 1) as int == 0x80 && JsonSpec.At(value, i + 2) as int == 0xA8 {
        text := "\\u2028";
        i := i + 2;
      } else if ch as int == 0xE2 && JsonSpec.At(value, i + 1) as int == 0x80 && JsonSpec.At(value, i + 2) as int == 0xA9 {
        text := "\\u2029";
        i := i + 2;
      } else {
        text := [ch];
      }
      i := i + 1;
      assert EscapeStep(value, k) == Step(text, i);
      Assoc(res, text, EscapedFrom(value, i));
      res := res + text;
    }
    assert res == out + ['"'] + EscapedFrom(value, 0);
    Assoc(out, ['"'], EscapedFrom(value, 0));
    Assoc(out, ['"'] + EscapedFrom(value, 0), ['"']);
    res := res + ['"'];
  }

  /** Json::dump(out): the dumpJson overload of the value's type. */
  method Dump(v: Json, out: seq<Byte>) returns (res: seq<Byte>)
    requires NoDouble(v)
    ensures res == out + DumpText(v)
    decreases v, 1
  {
    if v.Null? {
      res := out + "null";
    } else if v.Int? {
      res := out + IntText(v.i);
    } else if v.Bool? {
      res := out + (if v.b then "true" else "false");
    } else if v.Str? {
      res := DumpString(v.s, out);
    } else if v.Arr? {
      res := DumpArray(v.items, out);
    } else {
      res := DumpObject(v.members, out);
    }
  }

  /** dumpJson(const Json::Array&, out) */
  method DumpArray(values: seq<Json>, out: seq<Byte>) returns (res: seq<Byte>)
    requires forall p {:trigger NoDouble(values[p])} :: 0 <= p < |values| ==> NoDouble(values[p])
    ensures res == out + "[" + ItemsText(values) + "]"
    decreases values, 0
  {
    var first := true;
    res := out + "[";
    for k := 0 to |values|
      invariant first <==> k == 0
      invariant res == out + "[" + ItemsText(values[..k])
    {
      if !first {
        res := res + SEPARATOR;
      }
      res := Dump(values[k], res);
      first := false;
      assert values[..k + 1][..k] == values[..k];
    }
    assert values[..|values|] == values;
    res := res + "]";
  }

  /** dumpJson(const Json::Object&, out) */
  method DumpObject(values: seq<Member>, out: seq<Byte>) returns (res: seq<Byte>)
    requires forall p {:trigger NoDouble(values[p].value)} :: 0 <= p < |values| ==> NoDouble(values[p].value)
    ensures res == out + "{" + MembersText(values) + "}"
    decreases values, 0
  {
    var first := true;
    res := out + "{";
    for k := 0 to |values|
      invariant first <==> k == 0
      invariant res == out + "{" + MembersText(values[..k])
    {
      MembersTextSnoc(values, k);
      ghost var prefix := out + "{";
      ghost var done := MembersText(values[..k]);
      if !first {
        res := res + SEPARATOR;
      }
      ghost var sep: seq<Byte> := if k > 0 then SEPARATOR else [];
      Assoc(prefix, done, sep);
      res := DumpString(values[k].key, res);
      Assoc(prefix, done + sep, StringText(values[k].key));
      res := res + ": ";
      Assoc(prefix, done + sep + StringText(values[k].key), ": ");
      assert values[k].value < values[k];
      res := Dump(values[k].value, res);
      Assoc(prefix, done + sep + StringText(values[k].key) + ": ", DumpText(values[k].value));
      Assoc(done + sep, StringText(values[k].key), ": ");
      Assoc(done + sep, StringText(values[k].key) + ": ", DumpText(values[k].value));
      first := false;
    }
    assert values[..|values|] == values;
    res := res + "}";
  }
}
