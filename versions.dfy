/**
 * "Last version" resolution. The registry client is an injected pair of
 * lookups; the concurrent fan-out joined by `Promise.all` is modelled as a
 * sequential, fail-fast map over the declarations.
 */
module Versions {
  import opened Wrappers
  import opened Catalogs

  /** A registry lookup: the newest published version of a coordinate, or why there is none. */
  type Lookup = Declaration -> Result<string>

  /** The version service: one lookup for dependencies, one for Gradle plugins. */
  datatype VersionService = VersionService(dependencyLastVersion: Lookup, gradlePluginLastVersion: Lookup)

  /**
   * `Promise.all` over `xs.map(f)`: all results in input order when every
   * element succeeds, otherwise a failure carried by some element, every
   * element before which succeeded.
   */
  function MapAll<T, U>(f: T -> Result<U>, xs: seq<T>): (r: Result<seq<U>>)
    ensures r.Success? <==> forall i :: 0 <= i < |xs| ==> f(xs[i]).Success?
    ensures r.Success? ==> |r.value| == |xs|
    ensures r.Success? ==> forall i :: 0 <= i < |xs| ==> f(xs[i]) == Success(r.value[i])
    ensures r.Failure? ==> exists k :: 0 <= k < |xs| && f(xs[k]) == Failure(r.error) &&
                                       forall j :: 0 <= j < k ==> f(xs[j]).Success?
    decreases |xs|
  {
    if xs == [] then Success([])
    else match f(xs[0])
      case Failure(e) => Failure(e)
      case Success(y) =>
        match MapAll(f, xs[1..])
        case Failure(e) => Failure(e)
        case Success(ys) => Success([y] + ys)
  }

  /** `done` put in front of a successful remainder; a failure stays a failure. */
  function Prefixed<U>(done: seq<U>, rest: Result<seq<U>>): Result<seq<U>>
  {
    match rest
    case Success(s) => Success(done + s)
    case Failure(e) => Failure(e)
  }

  lemma PrefixedNothing<U>(rest: Result<seq<U>>)
    ensures Prefixed([], rest) == rest
  {
    if rest.Success? {
      assert [] + rest.value == rest.value;
    }
  }

  /** One step of a loop that performs `MapAll` from left to right. */
  lemma MapAllStep<T, U>(f: T -> Result<U>, xs: seq<T>, i: nat, done: seq<U>)
    requires i < |xs|
    ensures f(xs[i]).Failure? ==> Prefixed(done, MapAll(f, xs[i..])) == Failure(f(xs[i]).error)
    ensures f(xs[i]).Success? ==>
              Prefixed(done, MapAll(f, xs[i..])) == Prefixed(done + [f(xs[i]).value], MapAll(f, xs[i + 1..]))
  {
    assert xs[i..][0] == xs[i];
    assert xs[i..][1..] == xs[i + 1..];
    match MapAll(f, xs[i + 1..]) {
      case Failure(e) =>
      case Success(ys) =>
        if f(xs[i]).Success? {
          assert done + ([f(xs[i]).value] + ys) == (done + [f(xs[i]).value]) + ys;
        }
    }
  }

  /** Both halves' results in order; the first half's failure wins over the second's. */
  function Join<U>(a: Result<seq<U>>, b: Result<seq<U>>): Result<seq<U>>
  {
    match a
    case Failure(e) => Failure(e)
    case Success(s) => Prefixed(s, b)
  }

  /** Working on a concatenation is working on each part and concatenating the results. */
  lemma {:induction false} MapAllAppend<T, U>(f: T -> Result<U>, a: seq<T>, b: seq<T>)
    ensures MapAll(f, a + b) == Join(MapAll(f, a), MapAll(f, b))
    decreases |a|
  {
    if a == [] {
      assert a + b == b;
      match MapAll(f, b) {
        case Failure(e) =>
        case Success(s) => assert [] + s == s;
      }
    } else {
      assert (a + b)[0] == a[0];
      assert (a + b)[1..] == a[1..] + b;
      MapAllAppend(f, a[1..], b);
      match f(a[0]) {
        case Failure(e) =>
        case Success(y) =>
          match MapAll(f, a[1..]) {
            case Failure(e) =>
            case Success(ys) =>
              match MapAll(f, b) {
                case Failure(e) =>
                case Success(zs) => assert [y] + (ys + zs) == ([y] + ys) + zs;
              }
          }
      }
    }
  }

  /**
   * `_setDependencyLastVersion` on one declaration: a declaration flagged
   * `lastVersion` gets the looked-up version and nothing else changes; an
   * unflagged one is returned as it is; a failed lookup is the failure.
   */
  function ResolveOne(lookup: Lookup, d: Declaration): (r: Result<Declaration>)
    ensures !d.lastVersion ==> r == Success(d)
    ensures r.Failure? <==> d.lastVersion && lookup(d).Failure?
    ensures r.Failure? ==> r.error == lookup(d).error
    ensures r.Success? ==> r.value.(version := d.version) == d
    ensures r.Success? && d.lastVersion ==> r.value.version == Some(lookup(d).value)
  {
    if d.lastVersion then
      match lookup(d)
      case Success(v) => Success(d.(version := Some(v)))
      case Failure(e) => Failure(e)
    else Success(d)
  }

  function Resolver(lookup: Lookup): Declaration -> Result<Declaration>
  {
    d => ResolveOne(lookup, d)
  }

  /** Whether `r` is `d` with its version resolved by `lookup` (a successful `ResolveOne`). */
  predicate IsResolved(lookup: Lookup, d: Declaration, r: Declaration)
  {
    && r.(version := d.version) == d
    && (d.lastVersion ==> lookup(d).Success? && r.version == Some(lookup(d).value))
    && (!d.lastVersion ==> r == d)
  }

  /** Every flagged declaration's lookup succeeds. */
  predicate AllResolvable(lookup: Lookup, ds: seq<Declaration>)
  {
    forall i :: 0 <= i < |ds| && ds[i].lastVersion ==> lookup(ds[i]).Success?
  }

  /**
   * Version resolution of a list: same length and order, every element
   * resolved on its own; it succeeds exactly when every flagged element's
   * lookup does, and then every flagged element carries a version.
   */
  function ResolveAll(lookup: Lookup, ds: seq<Declaration>): (r: Result<seq<Declaration>>)
    ensures r.Success? <==> forall i :: 0 <= i < |ds| && ds[i].lastVersion ==> lookup(ds[i]).Success?
    ensures r.Success? ==> |r.value| == |ds|
    ensures r.Success? ==> forall i :: 0 <= i < |ds| ==> IsResolved(lookup, ds[i], r.value[i])
    ensures r.Success? ==> forall i :: 0 <= i < |ds| && ds[i].lastVersion ==> r.value[i].version.Some?
    ensures r.Failure? ==> exists k :: 0 <= k < |ds| && ds[k].lastVersion && lookup(ds[k]) == Failure(r.error)
  {
    var r := MapAll(Resolver(lookup), ds);
    assert forall i :: 0 <= i < |ds| ==> Resolver(lookup)(ds[i]) == ResolveOne(lookup, ds[i]);
    r
  }

  /** Fail-fast: the failure reported is that of the first flagged declaration whose lookup fails. */
  lemma ResolveAllFirstFailure(lookup: Lookup, ds: seq<Declaration>)
    requires ResolveAll(lookup, ds).Failure?
    ensures exists k :: && 0 <= k < |ds| && ds[k].lastVersion
                        && lookup(ds[k]) == Failure(ResolveAll(lookup, ds).error)
                        && forall j :: 0 <= j < k && ds[j].lastVersion ==> lookup(ds[j]).Success?
  {
  }
}
