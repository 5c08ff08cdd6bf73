/** Request bodies as parsed JSON values, and the field checks that the
    schema library applies to an object's members. A member that is absent
    from the object is JavaScript's `undefined`. */
module Json {
  import opened Common

  datatype Json =
    | JNull
    | JBool(b: bool)
    | JNum(n: real)
    | JStr(s: string)
    | JArr(items: seq<Json>)
    | JObj(fields: map<string, Json>)

  /** `Number.isInteger` on a finite number. */
  predicate IsInteger(x: real) {
    x.Floor as real == x
  }

  /** The members of `f` whose names are declared: what a strict object parse keeps. */
  function Restrict(f: map<string, Json>, keys: set<string>): (m: map<string, Json>)
    ensures m.Keys == f.Keys * keys
    ensures forall k :: k in m ==> m[k] == f[k]
  {
    map k | k in f && k in keys :: f[k]
  }

  // ---- declarative field constraints ----

  /** `z.string().min(minLen)`, required. */
  predicate IsString(f: map<string, Json>, k: string, minLen: nat) {
    k in f && f[k].JStr? && |f[k].s| >= minLen
  }

  /** `z.string().optional()`. */
  predicate IsOptString(f: map<string, Json>, k: string) {
    k !in f || f[k].JStr?
  }

  /** `z.number()`, required, strictly above `bound` (`.positive()` is a bound of 0). */
  predicate IsNumberAbove(f: map<string, Json>, k: string, bound: real) {
    k in f && f[k].JNum? && f[k].n > bound
  }

  /** `z.number().int().min(lo)` (and `.max(hi)` when `hi` is given). */
  predicate IsIntIn(f: map<string, Json>, k: string, lo: int, hi: Option<int>) {
    k in f && f[k].JNum? && IsInteger(f[k].n) && f[k].n >= lo as real
    && (hi.Some? ==> f[k].n <= hi.value as real)
  }

  /** `z.number().positive().optional()` and the like. */
  predicate IsOptNumberAbove(f: map<string, Json>, k: string, bound: real) {
    k !in f || (f[k].JNum? && f[k].n > bound)
  }

  /** `z.array(z.string()).optional()`. */
  predicate IsOptStringArray(f: map<string, Json>, k: string) {
    k !in f || (f[k].JArr? && forall i :: 0 <= i < |f[k].items| ==> f[k].items[i].JStr?)
  }

  // ---- extraction of the parsed value ----

  function StringAt(f: map<string, Json>, k: string): (r: Option<string>)
    ensures r.Some? <==> k in f && f[k].JStr?
    ensures r.Some? ==> f[k] == JStr(r.value)
  {
    if k in f && f[k].JStr? then Some(f[k].s) else None
  }

  /** The value of an optional string member; `None` when the member is absent. */
  function OptStringAt(f: map<string, Json>, k: string): (r: Option<string>)
    requires IsOptString(f, k)
    ensures r.Some? <==> k in f
    ensures r.Some? ==> f[k] == JStr(r.value)
  {
    if k in f then Some(f[k].s) else None
  }

  function NumberAt(f: map<string, Json>, k: string): (r: real)
    requires k in f && f[k].JNum?
    ensures f[k] == JNum(r)
  {
    f[k].n
  }

  function OptNumberAt(f: map<string, Json>, k: string): (r: Option<real>)
    requires k in f ==> f[k].JNum?
    ensures r.Some? <==> k in f
    ensures r.Some? ==> f[k] == JNum(r.value)
  {
    if k in f then Some(f[k].n) else None
  }

  function IntAt(f: map<string, Json>, k: string): (r: int)
    requires k in f && f[k].JNum? && IsInteger(f[k].n)
    ensures f[k] == JNum(r as real)
  {
    f[k].n.Floor
  }

  /** The strings of an array whose elements are all strings. */
  function Strings(items: seq<Json>): (r: seq<string>)
    requires forall i :: 0 <= i < |items| ==> items[i].JStr?
    ensures StringsJson(r) == items
  {
    if items == [] then [] else [items[0].s] + Strings(items[1..])
  }

  /** The array of strings `ss` as JSON. */
  function StringsJson(ss: seq<string>): (r: seq<Json>)
    ensures |r| == |ss|
    ensures forall i :: 0 <= i < |ss| ==> r[i] == JStr(ss[i])
  {
    seq(|ss|, i requires 0 <= i < |ss| => JStr(ss[i]))
  }

  lemma {:induction false} StringsRoundTrip(ss: seq<string>)
    ensures Strings(StringsJson(ss)) == ss
  {
    if ss != [] {
      StringsRoundTrip(ss[1..]);
      assert StringsJson(ss)[1..] == StringsJson(ss[1..]);
    }
  }

  function OptStringsAt(f: map<string, Json>, k: string): (r: Option<seq<string>>)
    requires IsOptStringArray(f, k)
    ensures r.Some? <==> k in f
    ensures r.Some? ==> f[k] == JArr(StringsJson(r.value))
  {
    if k in f then Some(Strings(f[k].items)) else None
  }

  // ---- encoders used to state what a parse recovers ----

  /** The member `k := v` when `v` is present, no member otherwise. */
  function OptMember(k: string, v: Option<Json>): map<string, Json> {
    if v.Some? then map[k := v.value] else map[]
  }

  function OptStr(s: Option<string>): Option<Json> {
    if s.Some? then Some(JStr(s.value)) else None
  }

  function OptNum(x: Option<real>): Option<Json> {
    if x.Some? then Some(JNum(x.value)) else None
  }

  function OptStrs(ss: Option<seq<string>>): Option<Json> {
    if ss.Some? then Some(JArr(StringsJson(ss.value))) else None
  }
}
