/** Decoded JSON and the lenient readers the program applies to it. */
module Json {
  import opened Prelude
  import opened Text

  /** Numbers decode to floating point; only their value matters here. */
  datatype Json =
    | Null
    | Bool(b: bool)
    | Num(n: real)
    | Str(s: string)
    | Arr(items: seq<Json>)
    | Obj(members: map<string, Json>)

  /** `m[key]`: Null when j is no object or lacks the key. */
  function Member(j: Json, key: string): Json {
    if j.Obj? && key in j.members then j.members[key] else Null
  }

  /** `s, _ := m[key].(string)`. */
  function StrOf(j: Json, key: string): string {
    var v := Member(j, key);
    if v.Str? then v.s else ""
  }

  /** Go's conversion to an integer truncates toward zero. */
  function Trunc(r: real): int { if r >= 0.0 then r.Floor else -((-r).Floor) }

  lemma TruncTowardZero(r: real)
    ensures r >= 0.0 ==> Trunc(r) >= 0 && Trunc(r) as real <= r < Trunc(r) as real + 1.0
    ensures r <= 0.0 ==> Trunc(r) <= 0 && Trunc(r) as real - 1.0 < r <= Trunc(r) as real
  {
  }

  /** `num` of internal/api/server.go: 0 when there is no number. */
  function NumOf(j: Json, key: string): int {
    var v := Member(j, key);
    if v.Num? then Trunc(v.n) else 0
  }

  /** `strconv.Atoi` for 64-bit integers. */
  function Atoi(s: string): Option<int> {
    var signed := s != "" && (s[0] == '-' || s[0] == '+');
    var digits := if signed then s[1..] else s;
    if digits == "" then None
    else
      var v :- Decimal(digits);
      var sign: int := if s[0] == '-' then -1 else 1;
      var n := sign * v;
      if -0x8000_0000_0000_0000 <= n < 0x8000_0000_0000_0000 then Some(n) else None
  }

  /** A string of digits, with or without a sign, that fits 64 bits. */
  lemma AtoiReads(s: string, v: int)
    requires s != "" && IsDigit(s[0]) && Decimal(s).Some? && Decimal(s).value == v
    ensures Atoi(s) == if v <= 0x7fff_ffff_ffff_ffff then Some(v) else None
    ensures Atoi("+" + s) == if v <= 0x7fff_ffff_ffff_ffff then Some(v) else None
    ensures Atoi("-" + s) == if v <= 0x8000_0000_0000_0000 then Some(-v) else None
  {
    hide Decimal;
    assert ("+" + s)[1..] == s && ("-" + s)[1..] == s;
  }

  /** `toInt` of internal/pipeline/failure.go. */
  function ToInt(v: Json): Option<int> {
    match v
    case Num(n) => Some(Trunc(n))
    case Str(s) => Atoi(s)
    case _ => None
  }
}
