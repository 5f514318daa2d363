/**
 * Shared vocabulary of the model: optional values, results carrying an error
 * message, the external collaborators the check engine consults (number and
 * duration parsing, the clock, time formatting), and a few sequence helpers.
 */
module Support {

  datatype Option<+T> = None | Some(value: T)

  /** A Go `(value, error)` pair where a non-nil error discards the value. */
  datatype Result<+T> = Ok(value: T) | Err(msg: string)

  /**
   * The collaborators the checks call but that are not part of the model.
   * Durations and instants are integers (nanoseconds); `now` is the value
   * `time.Now()` would return during the run.
   */
  datatype Runtime = Runtime(
    parseDuration: string -> Result<int>,  // time.ParseDuration
    parseFloat: string -> Result<real>,    // strconv.ParseFloat(_, 64)
    formatTime: int -> string,             // time.Time.String
    now: int)

  /** strings.Join */
  function Join(parts: seq<string>, sep: string): string
  {
    if |parts| == 0 then ""
    else if |parts| == 1 then parts[0]
    else parts[0] + sep + Join(parts[1..], sep)
  }

  /** `t` occurs in `s` as a contiguous block. */
  predicate Contains(s: string, t: string)
  {
    exists i :: 0 <= i <= |s| && t <= s[i..]
  }

  lemma ContainsMiddle(a: string, t: string, b: string)
    ensures Contains(a + t + b, t)
  {
    var s := a + t + b;
    assert s[|a|..] == t + b;
  }

  lemma ContainsSuffix(a: string, t: string)
    ensures Contains(a + t, t)
  {
    assert (a + t)[|a|..] == t;
  }

  lemma ContainsSuffixPair(a: string, u: string, v: string)
    ensures Contains(a + u + v, u + v)
  {
    assert (a + u + v)[|a|..] == u + v;
  }

  lemma ContainsTrans(s: string, t: string, u: string)
    requires Contains(s, t) && Contains(t, u)
    ensures Contains(s, u)
  {
    var i :| 0 <= i <= |s| && t <= s[i..];
    var j :| 0 <= j <= |t| && u <= t[j..];
    assert forall m :: 0 <= m < |t| ==> s[i + m] == t[m];
    assert forall m :: 0 <= m < |u| ==> t[j + m] == u[m];
    assert forall m :: 0 <= m < |u| ==> s[i + j..][m] == u[m];
  }

  lemma ContainsAppend(s: string, b: string, t: string)
    requires Contains(s, t)
    ensures Contains(s + b, t)
  {
    var i :| 0 <= i <= |s| && t <= s[i..];
    assert (s + b)[i..] == s[i..] + b;
  }

  lemma ContainsPrepend(a: string, s: string, t: string)
    requires Contains(s, t)
    ensures Contains(a + s, t)
  {
    var i :| 0 <= i <= |s| && t <= s[i..];
    assert (a + s)[|a| + i..] == s[i..];
  }

  /** A block of `s` is a block of anything `s` is part of. */
  lemma ContainsWithin(a: string, s: string, b: string, t: string)
    requires Contains(s, t)
    ensures Contains(a + s + b, t)
  {
    var i :| 0 <= i <= |s| && t <= s[i..];
    var w := a + s + b;
    assert w[|a| + i..] == s[i..] + b;
  }

  /** Every part of a join occurs in it. */
  lemma {:induction false} JoinContains(parts: seq<string>, sep: string, k: nat)
    requires k < |parts|
    ensures Contains(Join(parts, sep), parts[k])
  {
    if |parts| == 1 {
      assert parts[0] <= Join(parts, sep)[0..];
    } else if k == 0 {
      ContainsMiddle("", parts[0], sep + Join(parts[1..], sep));
      assert "" + parts[0] + (sep + Join(parts[1..], sep)) == Join(parts, sep);
    } else {
      JoinContains(parts[1..], sep, k - 1);
      ContainsWithin(parts[0] + sep, Join(parts[1..], sep), "", parts[k]);
      assert parts[0] + sep + Join(parts[1..], sep) + "" == Join(parts, sep);
    }
  }

  /** `a` is `b` with some elements left out, order kept. */
  predicate IsSubsequence<T(==)>(a: seq<T>, b: seq<T>)
    decreases |b|
  {
    if a == [] then true
    else if b == [] then false
    else if a[|a| - 1] == b[|b| - 1] then IsSubsequence(a[..|a| - 1], b[..|b| - 1])
    else IsSubsequence(a, b[..|b| - 1])
  }

  lemma {:induction false} SubsequenceExtend<T>(a: seq<T>, b: seq<T>, x: T, keep: bool)
    requires IsSubsequence(a, b)
    ensures IsSubsequence(if keep then a + [x] else a, b + [x])
  {
    var b' := b + [x];
    assert b'[..|b'| - 1] == b;
    if keep {
      var a' := a + [x];
      assert a'[..|a'| - 1] == a;
    } else {
      SubsequenceSnoc(a, b, x);
    }
  }

  /** A subsequence of `b` is a subsequence of `b` with one more element. */
  lemma {:induction false} SubsequenceSnoc<T>(a: seq<T>, b: seq<T>, x: T)
    requires IsSubsequence(a, b)
    ensures IsSubsequence(a, b + [x])
    decreases |b|, 1
  {
    var b' := b + [x];
    assert b'[..|b'| - 1] == b;
    if a != [] && a[|a| - 1] == x {
      SubsequenceDropLast(a, b);
    }
  }

  /** Removing the last element of a subsequence keeps it a subsequence. */
  lemma {:induction false} SubsequenceDropLast<T>(a: seq<T>, b: seq<T>)
    requires a != [] && IsSubsequence(a, b)
    ensures IsSubsequence(a[..|a| - 1], b)
    decreases |b|, 0
  {
    var b' := b[..|b| - 1];
    assert b == b' + [b[|b| - 1]];
    if a[|a| - 1] == b[|b| - 1] {
      SubsequenceSnoc(a[..|a| - 1], b', b[|b| - 1]);
    } else {
      SubsequenceDropLast(a, b');
      SubsequenceSnoc(a[..|a| - 1], b', b[|b| - 1]);
    }
  }

  /**
   * Evaluates `f` on every element in order and collects the values; the
   * first error stops the evaluation and is the outcome (Go's early
   * `return nil, err` inside a loop).
   */
  function EvalAll<P, R>(f: P -> Result<R>, ps: seq<P>): Result<seq<R>>
  {
    if ps == [] then Ok([])
    else
      match EvalAll(f, ps[..|ps| - 1])
      case Err(m) => Err(m)
      case Ok(rs) =>
        match f(ps[|ps| - 1])
        case Err(m) => Err(m)
        case Ok(r) => Ok(rs + [r])
  }

  /** Sequencing two evaluations: the first error wins. */
  function Then<R>(a: Result<seq<R>>, b: Result<seq<R>>): Result<seq<R>>
  {
    match a
    case Err(m) => Err(m)
    case Ok(xs) =>
      match b
      case Err(m) => Err(m)
      case Ok(ys) => Ok(xs + ys)
  }

  lemma {:induction false} EvalAllAppend<P, R>(f: P -> Result<R>, a: seq<P>, b: seq<P>)
    ensures EvalAll(f, a + b) == Then(EvalAll(f, a), EvalAll(f, b))
    decreases |b|
  {
    if b == [] {
      assert a + b == a;
      match EvalAll(f, a)
      case Err(m) =>
      case Ok(xs) => assert xs + [] == xs;
    } else {
      var ab := a + b;
      assert ab[..|ab| - 1] == a + b[..|b| - 1];
      assert ab[|ab| - 1] == b[|b| - 1];
      EvalAllAppend(f, a, b[..|b| - 1]);
      match EvalAll(f, a)
      case Err(m) =>
      case Ok(xs) =>
        match EvalAll(f, b[..|b| - 1])
        case Err(m) =>
        case Ok(ys) =>
          match f(b[|b| - 1])
          case Err(m) =>
          case Ok(y) => assert xs + ys + [y] == xs + (ys + [y]);
    }
  }

  /** An evaluation that already failed is not resumed by more elements. */
  lemma EvalAllErrPrefix<P, R>(f: P -> Result<R>, a: seq<P>, b: seq<P>)
    requires EvalAll(f, a).Err?
    ensures EvalAll(f, a + b) == EvalAll(f, a)
  {
    EvalAllAppend(f, a, b);
  }

  /** EvalAll succeeds exactly when every element evaluates, and then lists their values in order. */
  lemma {:induction false} EvalAllOk<P, R>(f: P -> Result<R>, ps: seq<P>)
    ensures EvalAll(f, ps).Ok? <==> forall k :: 0 <= k < |ps| ==> f(ps[k]).Ok?
    ensures EvalAll(f, ps).Ok? ==>
              |EvalAll(f, ps).value| == |ps| &&
              forall k :: 0 <= k < |ps| ==> EvalAll(f, ps).value[k] == f(ps[k]).value
  {
    if ps != [] {
      var init := ps[..|ps| - 1];
      EvalAllOk(f, init);
      assert forall k :: 0 <= k < |init| ==> init[k] == ps[k];
    }
  }

  /** An error outcome is the error of the first element that fails. */
  lemma {:induction false} EvalAllErr<P, R>(f: P -> Result<R>, ps: seq<P>)
    requires EvalAll(f, ps).Err?
    ensures exists k :: 0 <= k < |ps| && f(ps[k]) == Err(EvalAll(f, ps).msg) &&
                        forall j :: 0 <= j < k ==> f(ps[j]).Ok?
  {
    var init := ps[..|ps| - 1];
    assert forall k :: 0 <= k < |init| ==> init[k] == ps[k];
    if EvalAll(f, init).Err? {
      EvalAllErr(f, init);
      var k :| 0 <= k < |init| && f(init[k]) == Err(EvalAll(f, init).msg) &&
                forall j :: 0 <= j < k ==> f(init[j]).Ok?;
      assert f(ps[k]) == Err(EvalAll(f, ps).msg);
    } else {
      EvalAllOk(f, init);
      assert f(ps[|ps| - 1]) == Err(EvalAll(f, ps).msg);
    }
  }
}
