/** Small building blocks shared by the model: optional values, results that
    may be a thrown error, list search and the JavaScript string operations
    that the evidence pipeline uses. */
module Util {

  datatype Option<+T> = None | Some(value: T) {
    /** The `??` operator. */
    function GetOr(default: T): T {
      if Some? then value else default
    }
  }

  /** A call that returns a value or throws. */
  datatype Outcome<+T> = Ok(value: T) | Thrown(error: Error)

  datatype Error =
    | MissingProbe
    | UndefinedAccess
    | InvalidEvent
    | EmptyProbeId
    | AgentRanVerifier

  /** `Array.prototype.findIndex`, with -1 as None. */
  function FindIndex<A>(p: A -> bool, s: seq<A>): (r: Option<nat>)
    ensures r.Some? ==> r.value < |s| && p(s[r.value]) && forall j :: 0 <= j < r.value ==> !p(s[j])
    ensures r.None? ==> forall j :: 0 <= j < |s| ==> !p(s[j])
  {
    FindFrom(p, s, 0)
  }

  function FindFrom<A>(p: A -> bool, s: seq<A>, i: nat): (r: Option<nat>)
    requires i <= |s|
    ensures r.Some? ==> i <= r.value < |s| && p(s[r.value]) && forall j :: i <= j < r.value ==> !p(s[j])
    ensures r.None? ==> forall j :: i <= j < |s| ==> !p(s[j])
    decreases |s| - i
  {
    if i == |s| then None
    else if p(s[i]) then Some(i)
    else FindFrom(p, s, i + 1)
  }

  /** `filter(p).length`. */
  function Count<A>(p: A -> bool, s: seq<A>): nat {
    if s == [] then 0 else (if p(s[0]) then 1 else 0) + Count(p, s[1..])
  }

  lemma {:induction false} CountAppend<A>(p: A -> bool, s: seq<A>, t: seq<A>)
    ensures Count(p, s + t) == Count(p, s) + Count(p, t)
  {
    if s == [] {
      assert s + t == t;
    } else {
      assert (s + t)[1..] == s[1..] + t;
      CountAppend(p, s[1..], t);
    }
  }

  lemma {:induction false} CountIsPositive<A(!new)>(p: A -> bool, s: seq<A>)
    ensures Count(p, s) > 0 <==> exists a :: a in s && p(a)
  {
    if s != [] {
      CountIsPositive(p, s[1..]);
      assert forall a :: a in s <==> a == s[0] || a in s[1..];
    }
  }

  ghost predicate Every<A(!new)>(p: A -> bool, s: seq<A>) {
    forall a :: a in s ==> p(a)
  }

  /** `filter(p)`. */
  function Filter<A(!new)>(p: A -> bool, s: seq<A>): (r: seq<A>)
    ensures forall a :: a in r <==> a in s && p(a)
    ensures |r| <= |s|
  {
    if s == [] then [] else (if p(s[0]) then [s[0]] else []) + Filter(p, s[1..])
  }

  lemma {:induction false} FilterAppend<A(!new)>(p: A -> bool, s: seq<A>, t: seq<A>)
    ensures Filter(p, s + t) == Filter(p, s) + Filter(p, t)
  {
    if s == [] {
      assert s + t == t;
    } else {
      assert (s + t)[1..] == s[1..] + t;
      FilterAppend(p, s[1..], t);
    }
  }

  /** The concatenation of f(0), ..., f(n-1). */
  function Gather<A>(f: nat --> seq<A>, n: nat): seq<A>
    requires forall i: nat :: i < n ==> f.requires(i)
  {
    if n == 0 then [] else Gather(f, n - 1) + f(n - 1)
  }

  lemma GatherStep<A>(f: nat --> seq<A>, n: nat)
    requires forall i: nat :: i <= n ==> f.requires(i)
    ensures Gather(f, n + 1) == Gather(f, n) + f(n)
  {
  }

  lemma {:induction false} GatherMember<A>(f: nat --> seq<A>, n: nat, a: A)
    requires forall i: nat :: i < n ==> f.requires(i)
    ensures a in Gather(f, n) <==> exists i: nat :: i < n && a in f(i)
  {
    if n > 0 {
      GatherMember(f, n - 1, a);
    }
  }

  lemma {:induction false} GatherAgrees<A>(f: nat --> seq<A>, g: nat --> seq<A>, n: nat)
    requires forall i: nat :: i < n ==> f.requires(i) && g.requires(i) && f(i) == g(i)
    ensures Gather(f, n) == Gather(g, n)
  {
    if n > 0 {
      GatherAgrees(f, g, n - 1);
    }
  }

  lemma {:induction false} GatherGrows<A>(f: nat --> seq<A>, m: nat, n: nat)
    requires m <= n
    requires forall i: nat :: i < n ==> f.requires(i)
    ensures Gather(f, m) <= Gather(f, n)
  {
    if m < n {
      GatherGrows(f, m, n - 1);
    }
  }

  /** The texts of all elements, one after the other. */
  function Concat<A>(f: A -> string, s: seq<A>): string {
    if s == [] then "" else Concat(f, s[..|s| - 1]) + f(s[|s| - 1])
  }

  lemma ConcatOne<A>(f: A -> string, a: A)
    ensures Concat(f, [a]) == f(a)
  {
    assert [a][..0] == [];
    assert "" + f(a) == f(a);
  }

  lemma {:induction false} ConcatAppend<A>(f: A -> string, a: seq<A>, b: seq<A>)
    ensures Concat(f, a + b) == Concat(f, a) + Concat(f, b)
  {
    if b == [] {
      assert a + b == a;
    } else {
      assert (a + b)[..|a + b| - 1] == a + b[..|b| - 1];
      ConcatAppend(f, a, b[..|b| - 1]);
    }
  }

  /** `map(f)` where `f` may throw. */
  function Traverse<A, B>(f: A -> Outcome<B>, s: seq<A>): (r: Outcome<seq<B>>)
    ensures r.Ok? ==> |r.value| == |s| && forall i :: 0 <= i < |s| ==> f(s[i]) == Ok(r.value[i])
    ensures r.Thrown? ==> exists i :: 0 <= i < |s| && f(s[i]).Thrown?
  {
    if s == [] then Ok([])
    else
      match f(s[0])
      case Thrown(e) => Thrown(e)
      case Ok(first) =>
        match Traverse(f, s[1..])
        case Thrown(e) => Thrown(e)
        case Ok(rest) => Ok([first] + rest)
  }

  lemma TraverseOk<A, B>(f: A -> Outcome<B>, s: seq<A>)
    requires forall i :: 0 <= i < |s| ==> f(s[i]).Ok?
    ensures Traverse(f, s).Ok?
  {
  }

  /** Stable insertion sort, `Array.prototype.sort` for the order `le`. */
  function Sort<A(!new)>(le: (A, A) -> bool, s: seq<A>): (r: seq<A>)
    ensures |r| == |s| && forall a :: a in r <==> a in s
  {
    if s == [] then [] else Insert(le, Sort(le, s[..|s| - 1]), s[|s| - 1])
  }

  /** Inserts `a` behind every element that is not greater. */
  function Insert<A(!new)>(le: (A, A) -> bool, s: seq<A>, a: A): (r: seq<A>)
    ensures |r| == |s| + 1 && forall b :: b in r <==> b in s || b == a
  {
    if s == [] then [a]
    else if le(s[|s| - 1], a) then s + [a]
    else Insert(le, s[..|s| - 1], a) + [s[|s| - 1]]
  }

  /** `String.prototype.includes`. */
  predicate Includes(text: string, part: string) {
    part <= text || (text != [] && Includes(text[1..], part))
  }

  /** `Array.prototype.join`. */
  function Join(parts: seq<string>, separator: string): string {
    if parts == [] then ""
    else if |parts| == 1 then parts[0]
    else parts[0] + separator + Join(parts[1..], separator)
  }

  /** The text before and after the first `c`. */
  function CutAt(c: char, s: string): (r: Option<(string, string)>)
    ensures r.Some? ==> |r.value.0| + 1 + |r.value.1| == |s|
  {
    if s == "" then None
    else if s[0] == c then Some(("", s[1..]))
    else
      match CutAt(c, s[1..])
      case None => None
      case Some(cut) => Some(([s[0]] + cut.0, cut.1))
  }

  lemma {:induction false} CutFinds(c: char, a: string, b: string)
    requires c !in a
    ensures CutAt(c, a + [c] + b) == Some((a, b))
  {
    var s := a + [c] + b;
    if a == "" {
      assert s == [c] + b;
    } else {
      assert s[1..] == a[1..] + [c] + b;
      CutFinds(c, a[1..], b);
      assert [a[0]] + a[1..] == a;
    }
  }

  lemma {:induction false} CutMisses(c: char, a: string)
    requires c !in a
    ensures CutAt(c, a) == None
  {
    if a != "" {
      CutMisses(c, a[1..]);
    }
  }

  /** WhiteSpace and LineTerminator, sections 12.2 and 12.3 of ECMA-262. */
  predicate IsSpace(c: char) {
    || '\t' <= c <= '\r' || c == ' ' || c == '\U{A0}' || c == '\U{1680}'
    || '\U{2000}' <= c <= '\U{200A}' || c == '\U{2028}' || c == '\U{2029}'
    || c == '\U{202F}' || c == '\U{205F}' || c == '\U{3000}' || c == '\U{FEFF}'
  }

  function TrimStart(s: string): (r: string)
    ensures r == [] || !IsSpace(r[0])
    ensures |r| <= |s|
  {
    if s != [] && IsSpace(s[0]) then TrimStart(s[1..]) else s
  }

  function TrimEnd(s: string): (r: string)
    ensures r == [] || !IsSpace(r[|r| - 1])
    ensures r <= s
  {
    if s != [] && IsSpace(s[|s| - 1]) then TrimEnd(s[..|s| - 1]) else s
  }

  /** `String.prototype.trim`. */
  function Trim(s: string): (r: string)
    ensures r == [] || (!IsSpace(r[0]) && !IsSpace(r[|r| - 1]))
  {
    TrimEnd(TrimStart(s))
  }

  lemma TrimFixesTrimmed(s: string)
    ensures Trim(Trim(s)) == Trim(s)
  {
  }

  /** `a || b` on strings. */
  function OrElse(a: string, b: string): string {
    if a != "" then a else b
  }
}
