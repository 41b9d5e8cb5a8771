/** Optional values, results and a sequence predicate, shared by every module. */
module Wrappers {

  datatype Option<+T> = None | Some(value: T)

  datatype Result<+T, +E> = Ok(value: T) | Err(error: E)

  /** The first of two optional values that is present. */
  function OrElse<T>(first: Option<T>, second: Option<T>): Option<T> {
    if first.Some? then first else second
  }

  predicate NoRepeats<T(==)>(s: seq<T>) {
    forall i, j :: 0 <= i < j < |s| ==> s[i] != s[j]
  }

  lemma NoRepeatsConcat<T>(a: seq<T>, b: seq<T>)
    requires NoRepeats(a) && NoRepeats(b) && forall x :: x in b ==> x !in a
    ensures NoRepeats(a + b)
  {
    forall i, j | 0 <= i < j < |a + b|
      ensures (a + b)[i] != (a + b)[j]
    {
      if i < |a| <= j {
        assert b[j - |a|] in b && a[i] in a;
      }
    }
  }

  lemma RepeatsConcat<T>(a: seq<T>, b: seq<T>)
    requires !NoRepeats(a) || !NoRepeats(b)
    ensures !NoRepeats(a + b)
  {
    if i, j :| 0 <= i < j < |a| && a[i] == a[j] {
      assert (a + b)[i] == (a + b)[j];
    } else {
      var i, j :| 0 <= i < j < |b| && b[i] == b[j];
      assert (a + b)[|a| + i] == (a + b)[|a| + j];
    }
  }

  /** A sequence has as many members as elements exactly when it has no repeats. */
  lemma {:induction false} MemberCount<T>(s: seq<T>)
    ensures |set x | x in s| <= |s|
    ensures |set x | x in s| == |s| <==> NoRepeats(s)
  {
    if s != [] {
      var n := |s| - 1;
      var before := set x | x in s[..n];
      MemberCount(s[..n]);
      assert s == s[..n] + [s[n]];
      assert (set x | x in s) == before + {s[n]};
      if s[n] in before {
        var i :| 0 <= i < n && s[..n][i] == s[n];
        assert s[i] == s[n];
      }
    }
  }

  // ---------- Subsequences ----------

  ghost predicate Increasing(p: seq<nat>, bound: nat) {
    && (forall k :: 0 <= k < |p| ==> p[k] < bound)
    && (forall k, l :: 0 <= k < l < |p| ==> p[k] < p[l])
  }

  /** The values among some optional readings, and the positions they come from. */
  function Present<T>(readings: seq<Option<T>>): seq<T> {
    if readings == [] then []
    else
      var last := readings[|readings| - 1];
      Present(readings[..|readings| - 1]) + if last.Some? then [last.value] else []
  }

  function Positions<T>(readings: seq<Option<T>>): seq<nat> {
    if readings == [] then []
    else
      var n := |readings| - 1;
      Positions(readings[..n]) + if readings[n].Some? then [n] else []
  }

  lemma {:induction false} PositionsIncrease<T>(readings: seq<Option<T>>)
    ensures Increasing(Positions(readings), |readings|)
  {
    if readings != [] {
      PositionsIncrease(readings[..|readings| - 1]);
    }
  }

  lemma {:induction false} PositionsArePresent<T>(readings: seq<Option<T>>)
    ensures |Positions(readings)| == |Present(readings)|
    ensures forall k :: 0 <= k < |Present(readings)| ==>
              Positions(readings)[k] < |readings| && readings[Positions(readings)[k]] == Some(Present(readings)[k])
  {
    if readings != [] {
      PositionsArePresent(readings[..|readings| - 1]);
    }
  }

  lemma {:induction false} PresentIsPositioned<T>(readings: seq<Option<T>>, i: nat)
    requires i < |readings| && readings[i].Some?
    ensures i in Positions(readings)
  {
    if i < |readings| - 1 {
      PresentIsPositioned(readings[..|readings| - 1], i);
    }
  }

  /** The values present are exactly the readings at the positions that have one, in order. */
  lemma PresentByPosition<T>(readings: seq<Option<T>>)
    ensures Increasing(Positions(readings), |readings|) && |Positions(readings)| == |Present(readings)|
    ensures forall k :: 0 <= k < |Present(readings)| ==> readings[Positions(readings)[k]] == Some(Present(readings)[k])
    ensures forall i :: 0 <= i < |readings| ==> (i in Positions(readings) <==> readings[i].Some?)
  {
    PositionsIncrease(readings);
    PositionsArePresent(readings);
    forall i | 0 <= i < |readings| && readings[i].Some?
      ensures i in Positions(readings)
    {
      PresentIsPositioned(readings, i);
    }
  }
}
