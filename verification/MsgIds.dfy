/** Message ids with one tag (`nchan_msg_id_t` with `tagcount == 1`), their order, and
    the position of an id in a strictly increasing message log. */
module MsgIds {

  datatype MsgId = MsgId(time: int, tag: int)

  /** `NCHAN_OLDEST_MSGID`. */
  const OLDEST := MsgId(0, 0)

  predicate Lt(a: MsgId, b: MsgId) {
    a.time < b.time || (a.time == b.time && a.tag < b.tag)
  }

  predicate Le(a: MsgId, b: MsgId) {
    a == b || Lt(a, b)
  }

  /** A channel's messages in publishing order: strictly increasing, all after OLDEST. */
  ghost predicate Sorted(log: seq<MsgId>) {
    && (forall i :: 0 <= i < |log| ==> Lt(OLDEST, log[i]))
    && (forall i, j :: 0 <= i < j < |log| ==> Lt(log[i], log[j]))
  }

  /** The `prev_id` that the next published message carries. */
  function Head(log: seq<MsgId>): MsgId {
    if log == [] then OLDEST else log[|log| - 1]
  }

  /** How many messages of the log an id has already passed; also the index of its successor. */
  function Passed(log: seq<MsgId>, x: MsgId): (n: nat)
    ensures n <= |log|
  {
    PassedUpTo(log, x, |log|)
  }

  function PassedUpTo(log: seq<MsgId>, x: MsgId, n: nat): (p: nat)
    requires n <= |log|
    ensures p <= n
  {
    if n == 0 || !Lt(x, log[n - 1]) then n else PassedUpTo(log, x, n - 1)
  }

  lemma {:induction false} PassedSplitsUpTo(log: seq<MsgId>, x: MsgId, n: nat)
    requires Sorted(log) && n <= |log|
    ensures forall i :: 0 <= i < PassedUpTo(log, x, n) ==> Le(log[i], x)
    ensures forall i :: PassedUpTo(log, x, n) <= i < n ==> Lt(x, log[i])
  {
    if n > 0 && Lt(x, log[n - 1]) {
      PassedSplitsUpTo(log, x, n - 1);
    }
  }

  lemma PassedSplits(log: seq<MsgId>, x: MsgId)
    requires Sorted(log)
    ensures forall i :: 0 <= i < Passed(log, x) ==> Le(log[i], x)
    ensures forall i :: Passed(log, x) <= i < |log| ==> Lt(x, log[i])
  {
    PassedSplitsUpTo(log, x, |log|);
  }

  /** The splitting index is unique. */
  lemma PassedIs(log: seq<MsgId>, x: MsgId, n: nat)
    requires Sorted(log) && n <= |log|
    requires n > 0 ==> Le(log[n - 1], x)
    requires n < |log| ==> Lt(x, log[n])
    ensures Passed(log, x) == n
  {
    PassedSplits(log, x);
  }

  lemma {:induction false} PassedPrefix(log: seq<MsgId>, m: MsgId, x: MsgId, n: nat)
    requires n <= |log|
    ensures PassedUpTo(log + [m], x, n) == PassedUpTo(log, x, n)
  {
    if n > 0 && Lt(x, log[n - 1]) {
      PassedPrefix(log, m, x, n - 1);
    }
  }

  lemma PassedAppend(log: seq<MsgId>, m: MsgId, x: MsgId)
    ensures Lt(x, m) ==> Passed(log + [m], x) == Passed(log, x)
    ensures !Lt(x, m) ==> Passed(log + [m], x) == |log| + 1
  {
    PassedPrefix(log, m, x, |log|);
  }

  lemma SortedAppend(log: seq<MsgId>, m: MsgId)
    requires Sorted(log) && Lt(Head(log), m)
    ensures Sorted(log + [m]) && Head(log + [m]) == m
  {
  }
}
