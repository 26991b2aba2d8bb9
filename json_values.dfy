/** The part of `serde_json::Value` the program uses: the value tree, `get`,
    `as_str`, `as_u64` and JSON-pointer navigation (`pointer`). Parsing JSON text
    (`serde_json::from_str`) is not modelled: callers pass it in as a function. */
module JsonValues {
  import opened Wrappers
  import opened Strings

  newtype u64 = x: int | 0 <= x < 0x1_0000_0000_0000_0000

  /** serde_json keeps a non-negative integer that fits as `PosInt`, a negative one as
      `NegInt` and every other number as a float. */
  datatype Number = PosInt(n: u64) | NegInt(i: int) | Float

  datatype Value =
    | Null
    | Bool(b: bool)
    | Number(number: Number)
    | String(s: string)
    | Array(items: seq<Value>)
    | Object(members: map<string, Value>)

  /** `Value::get(key)`: a member of an object; any other value has no members. */
  function Get(v: Value, key: string): (r: Option<Value>)
    ensures r.Some? <==> v.Object? && key in v.members
  {
    match v
    case Object(members) => if key in members then Some(members[key]) else None
    case _ => None
  }

  /** `Value::as_str` */
  function AsStr(v: Value): Option<string>
  {
    if v.String? then Some(v.s) else None
  }

  /** `Value::as_u64`: only an integer stored as `PosInt` converts. */
  function AsU64(v: Value): Option<u64>
  {
    if v.Number? && v.number.PosInt? then Some(v.number.n) else None
  }

  predicate IsDigit(c: char)
  {
    '0' <= c <= '9'
  }

  function DigitsValue(s: string): nat
    requires forall i :: 0 <= i < |s| ==> IsDigit(s[i])
  {
    if s == [] then 0
    else
      assert IsDigit(s[|s| - 1]);
      10 * DigitsValue(s[..|s| - 1]) + (s[|s| - 1] as int - '0' as int)
  }

  /** `usize::from_str` on a 64-bit target, for text without a sign. */
  function ParseUsize(s: string): Option<nat>
  {
    if s != [] && (forall i :: 0 <= i < |s| ==> IsDigit(s[i])) && DigitsValue(s) < 0x1_0000_0000_0000_0000
    then Some(DigitsValue(s))
    else None
  }

  /** serde_json's `parse_index`: an array index written without sign or leading zeros. */
  function ParseIndex(token: string): (r: Option<nat>)
    ensures StartsWith(token, "+") ==> r.None?
    ensures r.Some? && |token| > 1 ==> token[0] != '0'
    // only decimal digits are read, so no sign at all is accepted
    ensures r.Some? ==> token != [] && forall i :: 0 <= i < |token| ==> IsDigit(token[i])
  {
    if StartsWith(token, "+") || (StartsWith(token, "0") && |token| != 1) then None
    else ParseUsize(token)
  }

  /** One step of a pointer: an object is indexed by the token as a key, an array by
      the token read as an index; nothing else can be stepped into. */
  function Step(v: Value, token: string): Option<Value>
  {
    match v
    case Object(members) => if token in members then Some(members[token]) else None
    case Array(items) =>
      var index := ParseIndex(token);
      if index.Some? && index.value < |items| then Some(items[index.value]) else None
    case _ => None
  }

  function Navigate(v: Value, tokens: seq<string>): Option<Value>
    decreases |tokens|
  {
    if tokens == [] then Some(v)
    else
      match Step(v, tokens[0])
      case None => None
      case Some(next) => Navigate(next, tokens[1..])
  }

  lemma NavigateThrough(v: Value, tokens: seq<string>, next: Value)
    requires tokens != [] && Step(v, tokens[0]) == Some(next)
    ensures Navigate(v, tokens) == Navigate(next, tokens[1..])
  {
  }

  lemma ParseIndexZero()
    ensures ParseIndex("0") == Some(0)
  {
    assert "0"[..0] == "";
    assert DigitsValue("0") == 0;
  }

  /** A reference token with its escapes `~1` (for `/`) and `~0` (for `~`) undone, in that order. */
  function Unescape(token: string): string
  {
    Replace(Replace(token, "~1", "/"), "~0", "~")
  }

  function UnescapeAll(tokens: seq<string>): (r: seq<string>)
    ensures |r| == |tokens|
    ensures forall i :: 0 <= i < |r| ==> r[i] == Unescape(tokens[i])
  {
    if tokens == [] then [] else [Unescape(tokens[0])] + UnescapeAll(tokens[1..])
  }

  /** Tokens without `~` contain no escapes. */
  lemma UnescapeAllPlain(tokens: seq<string>)
    requires forall i :: 0 <= i < |tokens| ==> '~' !in tokens[i]
    ensures UnescapeAll(tokens) == tokens
  {
    forall i | 0 <= i < |tokens| ensures Unescape(tokens[i]) == tokens[i] {
      ReplaceAbsent(tokens[i], "~1", "/");
      ReplaceAbsent(tokens[i], "~0", "~");
    }
  }

  /** A pointer written as `/`-separated tokens without escapes follows those tokens. */
  lemma PointerOfJoin(v: Value, pieces: seq<string>)
    requires |pieces| >= 2 && pieces[0] == ""
    requires forall i :: 0 <= i < |pieces| ==> '/' !in pieces[i] && '~' !in pieces[i]
    ensures Pointer(v, Join(pieces, '/')) == Navigate(v, pieces[1..])
  {
    SplitJoin(pieces, '/');
    UnescapeAllPlain(pieces[1..]);
    var p := Join(pieces, '/');
    assert p == "" + ['/'] + Join(pieces[1..], '/');
    assert StartsWith(p, "/");
  }

  /** `Value::pointer` (RFC 6901 JSON pointer): the empty pointer is the value itself,
      a pointer not starting with `/` finds nothing, otherwise the `/`-separated
      tokens after the first `/` are followed one by one. */
  function Pointer(v: Value, pointer: string): (r: Option<Value>)
    ensures pointer == "" ==> r == Some(v)
    ensures pointer != "" && pointer[0] != '/' ==> r.None?
  {
    if pointer == "" then Some(v)
    else if !StartsWith(pointer, "/") then None
    else Navigate(v, UnescapeAll(Split(pointer, '/')[1..]))
  }
}
