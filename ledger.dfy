/** The token ledger of one account: its balance (`tokenCount`) and its `tokenHistory`. */
module Ledger {
  import opened Base
  import opened Records

  /** A history is chained when it starts with an entry whose balance is its own amount,
      every later entry's balance is the previous balance plus its amount, and no balance is
      negative. */
  ghost predicate Chained(h: seq<HistoryEntry>) {
    && |h| > 0
    && h[0].balance == h[0].amount
    && (forall i, j :: 0 <= i && j == i + 1 && j < |h| ==> h[j].balance == h[i].balance + h[j].amount)
    && (forall i :: 0 <= i < |h| ==> h[i].balance >= 0)
  }

  /** The ledger of an account agrees with its balance: the history is chained and its last
      balance is the account's tokenCount. */
  ghost predicate Consistent(tokenCount: int, h: seq<HistoryEntry>) {
    Chained(h) && h[|h| - 1].balance == tokenCount
  }

  /** Sum of the amounts of a history. */
  function Total(h: seq<HistoryEntry>): int {
    if h == [] then 0 else Total(h[..|h| - 1]) + h[|h| - 1].amount
  }

  /** The history a new account starts with: one welcome bonus of 100 tokens. */
  function WelcomeHistory(now: nat): (h: seq<HistoryEntry>)
    ensures Consistent(WelcomeBonus, h) && Total(h) == WelcomeBonus
  {
    [HistoryEntry(WelcomeKind, WelcomeBonus, WelcomeBonus, WelcomeDescription, now)]
  }

  /** updateTokens' decision: the new balance, or None when it would fall below zero. */
  function NewBalance(current: int, amount: int): (r: Option<int>)
    ensures r.Some? <==> current + amount >= 0
    ensures r.Some? ==> r.value >= 0 && r.value - current == amount
  {
    if current + amount < 0 then None else Some(current + amount)
  }

  /** In a chained history the last balance is the sum of all amounts: the balance can be
      rebuilt from the history alone. */
  lemma {:induction false} ChainedBalanceIsTotal(h: seq<HistoryEntry>)
    requires Chained(h)
    ensures h[|h| - 1].balance == Total(h)
  {
    if |h| == 1 {
      assert h[..0] == [];
    } else {
      var p := h[..|h| - 1];
      assert forall i :: 0 <= i < |p| ==> p[i] == h[i];
      assert Chained(p);
      ChainedBalanceIsTotal(p);
    }
  }

  /** Appending the entry updateTokens writes keeps the ledger consistent with the new
      balance. */
  lemma {:induction false} AppendKeepsConsistent(
    tokenCount: int, h: seq<HistoryEntry>, amount: int, kind: string, description: string, now: nat)
    requires Consistent(tokenCount, h)
    requires NewBalance(tokenCount, amount).Some?
    ensures var b := NewBalance(tokenCount, amount).value;
      Consistent(b, h + [HistoryEntry(kind, amount, b, description, now)])
      && Total(h + [HistoryEntry(kind, amount, b, description, now)]) == Total(h) + amount
  {
    var b := NewBalance(tokenCount, amount).value;
    var h' := h + [HistoryEntry(kind, amount, b, description, now)];
    assert h'[..|h'| - 1] == h;
    assert forall i :: 0 <= i < |h| ==> h'[i] == h[i];
  }

  /** So the balance of a consistent ledger is never negative and always equals the sum of
      the history's amounts. */
  lemma BalanceFromHistory(tokenCount: int, h: seq<HistoryEntry>)
    requires Consistent(tokenCount, h)
    ensures tokenCount == Total(h) && tokenCount >= 0
  {
    ChainedBalanceIsTotal(h);
  }
}
