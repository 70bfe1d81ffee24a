/** Lists that hold the same elements in another order. */
module Rearranged {
  lemma PutBack<T>(ws: seq<T>, k: nat)
    requires k < |ws|
    ensures multiset(ws) == multiset(ws[..k] + ws[k + 1..]) + multiset{ws[k]}
  {
    assert ws == ws[..k] + [ws[k]] + ws[k + 1..];
  }

  /** The first element of a list, found in a rearrangement of it and taken out there. */
  lemma TakeOutFirst<T>(ws: seq<T>, us: seq<T>) returns (k: nat)
    requires ws != [] && multiset(ws) == multiset(us)
    ensures k < |us| && us[k] == ws[0]
    ensures multiset(ws[1..]) == multiset(us[..k] + us[k + 1..])
  {
    assert ws[0] in multiset(us);
    k :| 0 <= k < |us| && us[k] == ws[0];
    PutBack(us, k);
    PutBack(ws, 0);
    assert ws[..0] + ws[1..] == ws[1..];
    Cancel(multiset(ws[1..]), multiset(us[..k] + us[k + 1..]), ws[0]);
  }

  /** The converse of `TakeOutFirst`. */
  lemma PutBackFirst<T>(ws: seq<T>, us: seq<T>, k: nat)
    requires ws != [] && k < |us| && us[k] == ws[0]
    requires multiset(ws[1..]) == multiset(us[..k] + us[k + 1..])
    ensures multiset(ws) == multiset(us)
  {
    PutBack(us, k);
    PutBack(ws, 0);
    assert ws[..0] + ws[1..] == ws[1..];
  }

  lemma Cancel<T>(a: multiset<T>, b: multiset<T>, x: T)
    requires a + multiset{x} == b + multiset{x}
    ensures a == b
  {
    assert a == a + multiset{x} - multiset{x};
    assert b == b + multiset{x} - multiset{x};
  }
}
