/** A payment provider's ledger: every call is filed under its idempotency key,
    and a call under a key already on file gets back what the first one got. */
module Provider {
  import opened Text

  datatype Kind = Created | Replayed

  datatype Entry = Entry(n: nat, action: string, outcome: Kind, key: string, id: string, amount: int, detail: string)

  datatype Call = Call(action: string, prefix: string, key: string, amount: int, detail: string)

  datatype Reply = Refused | Reply(id: string, amount: int, replayed: bool)

  /** How an identifier is derived from a prefix and a key. */
  type Mint = (string, string) -> string

  predicate Creates(e: Entry, action: string, key: string) {
    e.action == action && e.key == key && e.outcome == Created
  }

  /** The first entry that created something under the key, or the length. */
  function Prior(entries: seq<Entry>, action: string, key: string): (i: nat)
    ensures i <= |entries|
    ensures i < |entries| ==> Creates(entries[i], action, key)
    ensures forall j :: 0 <= j < i ==> !Creates(entries[j], action, key)
  {
    if entries == [] || Creates(entries[0], action, key) then 0 else 1 + Prior(entries[1..], action, key)
  }

  /** One call: the ledger after it and what it prints. */
  function Perform(mint: Mint, credential: bool, entries: seq<Entry>, c: Call): (seq<Entry>, Reply) {
    if !credential || c.key == "" then (entries, Refused)
    else
      var i, n := Prior(entries, c.action, c.key), |entries| + 1;
      if i < |entries| then
        (entries + [Entry(n, c.action, Replayed, c.key, entries[i].id, entries[i].amount, c.detail)],
         Reply(entries[i].id, entries[i].amount, true))
      else
        var id := mint(c.prefix, c.key);
        (entries + [Entry(n, c.action, Created, c.key, id, c.amount, c.detail)], Reply(id, c.amount, false))
  }

  class Ledger {
    var entries: seq<Entry>

    constructor ()
      ensures entries == []
    {
      entries := [];
    }

    method Existing(action: string, key: string) returns (found: Option<Entry>)
      ensures found == var i := Prior(entries, action, key);
                       if i < |entries| then Some(entries[i]) else None
    {
      var i := 0;
      while i < |entries|
        invariant i <= |entries|
        invariant Prior(entries, action, key) == i + Prior(entries[i..], action, key)
      {
        var entry := entries[i];
        if entry.action == action && entry.key == key {
          if entry.outcome == Created {
            return Some(entry);
          }
        }
        i := i + 1;
      }
      return None;
    }

    method Run(mint: Mint, credential: bool, c: Call) returns (reply: Reply)
      modifies this
      ensures (entries, reply) == Perform(mint, credential, old(entries), c)
    {
      if !credential {
        return Refused;
      }
      if c.key == "" {
        return Refused;
      }
      var prior := Existing(c.action, c.key);
      if prior.Some? {
        entries := entries +
                   [Entry(|entries| + 1, c.action, Replayed, c.key, prior.value.id, prior.value.amount, c.detail)];
        return Reply(prior.value.id, prior.value.amount, true);
      }
      var id := mint(c.prefix, c.key);
      entries := entries + [Entry(|entries| + 1, c.action, Created, c.key, id, c.amount, c.detail)];
      return Reply(id, c.amount, false);
    }
  }

  // --- whole sequences of calls ---------------------------------------------

  /** A call, and whether the credential was in its process. */
  datatype Attempt = Attempt(call: Call, credential: bool)

  function After(mint: Mint, entries: seq<Entry>, attempts: seq<Attempt>): seq<Entry>
    decreases |attempts|
  {
    if attempts == [] then entries
    else After(mint, Perform(mint, attempts[0].credential, entries, attempts[0].call).0, attempts[1..])
  }

  /** The attempt files an entry. */
  predicate Files(a: Attempt) {
    a.credential && a.call.key != ""
  }

  /** The entry is numbered by its place; if it created something it is the first
      under its key to do so, and if it replayed it repeats the identifier and the
      amount of such an entry before it. */
  predicate Sound(entries: seq<Entry>, i: nat)
    requires i < |entries|
  {
    var e := entries[i];
    var prior := Prior(entries, e.action, e.key);
    && e.n == i + 1
    && (e.outcome == Created ==> prior == i)
    && (e.outcome == Replayed ==> prior < i && e.id == entries[prior].id && e.amount == entries[prior].amount)
  }

  predicate Consistent(entries: seq<Entry>) {
    forall i :: 0 <= i < |entries| ==> Sound(entries, i)
  }

  lemma {:induction false} PriorAppend(entries: seq<Entry>, e: Entry, action: string, key: string)
    ensures Prior(entries + [e], action, key) ==
            if Prior(entries, action, key) < |entries| || Creates(e, action, key) then Prior(entries, action, key)
            else |entries| + 1
  {
    if entries == [] {
      assert [] + [e] == [e] && [e][1..] == [];
    } else {
      assert (entries + [e])[1..] == entries[1..] + [e] && (entries + [e])[0] == entries[0];
      PriorAppend(entries[1..], e, action, key);
    }
  }

  lemma AppendSound(entries: seq<Entry>, e: Entry, i: nat)
    requires i < |entries| && Sound(entries, i)
    ensures Sound(entries + [e], i)
  {
    PriorAppend(entries, e, entries[i].action, entries[i].key);
  }

  lemma LastSound(entries: seq<Entry>, e: Entry)
    requires e.n == |entries| + 1
    requires var prior := Prior(entries, e.action, e.key);
             if e.outcome == Created then prior == |entries|
             else prior < |entries| && e.id == entries[prior].id && e.amount == entries[prior].amount
    ensures Sound(entries + [e], |entries|)
  {
    PriorAppend(entries, e, e.action, e.key);
  }

  /** One call keeps the ledger consistent and never loses an entry. */
  lemma PerformKeeps(mint: Mint, credential: bool, entries: seq<Entry>, c: Call)
    requires Consistent(entries)
    ensures Consistent(Perform(mint, credential, entries, c).0)
    ensures entries <= Perform(mint, credential, entries, c).0
  {
    var next := Perform(mint, credential, entries, c).0;
    if next != entries {
      var e := next[|entries|];
      assert next == entries + [e];
      LastSound(entries, e);
      forall i | 0 <= i < |entries|
        ensures Sound(next, i)
      {
        AppendSound(entries, e, i);
      }
    }
  }

  lemma {:induction false} AfterKeeps(mint: Mint, entries: seq<Entry>, attempts: seq<Attempt>)
    requires Consistent(entries)
    ensures Consistent(After(mint, entries, attempts)) && entries <= After(mint, entries, attempts)
    decreases |attempts|
  {
    if attempts != [] {
      PerformKeeps(mint, attempts[0].credential, entries, attempts[0].call);
      AfterKeeps(mint, Perform(mint, attempts[0].credential, entries, attempts[0].call).0, attempts[1..]);
    }
  }

  /** After any calls at all: at most one entry under an action and a key created
      something, and every replayed entry follows it and carries its identifier and
      amount. */
  lemma OneCreation(mint: Mint, attempts: seq<Attempt>)
    ensures var entries := After(mint, [], attempts);
            && Consistent(entries)
            && forall i, j :: 0 <= i < j < |entries| && Creates(entries[i], entries[j].action, entries[j].key) ==>
                 Repeats(entries[j], entries[i])
  {
    AfterKeeps(mint, [], attempts);
    var entries := After(mint, [], attempts);
    forall i, j | 0 <= i < j < |entries| && Creates(entries[i], entries[j].action, entries[j].key)
      ensures Repeats(entries[j], entries[i])
    {
      assert Sound(entries, i) && Sound(entries, j);
    }
  }

  /** `e` moved nothing and says what `first` said. */
  predicate Repeats(e: Entry, first: Entry) {
    e.outcome == Replayed && e.id == first.id && e.amount == first.amount
  }

  // --- retries --------------------------------------------------------------

  /** The attempts without those that file nothing, and without every one that
      comes after another under its action and key. */
  function Firsts(attempts: seq<Attempt>, seen: set<(string, string)>): seq<Attempt>
    decreases |attempts|
  {
    if attempts == [] then []
    else
      var a := attempts[0];
      var name := (a.call.action, a.call.key);
      if !Files(a) || name in seen then Firsts(attempts[1..], seen)
      else [a] + Firsts(attempts[1..], seen + {name})
  }

  /** What was paid out: each creation without the number it was filed under. */
  datatype Payment = Payment(action: string, key: string, id: string, amount: int, detail: string)

  function Payments(entries: seq<Entry>): seq<Payment> {
    if entries == [] then []
    else
      var e := entries[|entries| - 1];
      Payments(entries[..|entries| - 1]) +
      if e.outcome == Created then [Payment(e.action, e.key, e.id, e.amount, e.detail)] else []
  }

  function PaymentsOf(mint: Mint, attempts: seq<Attempt>): seq<Payment> {
    if attempts == [] then []
    else
      var c := attempts[0].call;
      [Payment(c.action, c.key, mint(c.prefix, c.key), c.amount, c.detail)] + PaymentsOf(mint, attempts[1..])
  }

  function Total(payments: seq<Payment>): int {
    if payments == [] then 0 else payments[0].amount + Total(payments[1..])
  }

  /** `seen` is what the ledger has creations for. */
  ghost predicate Covers(entries: seq<Entry>, seen: set<(string, string)>) {
    forall action, key :: (action, key) in seen <==> Prior(entries, action, key) < |entries|
  }

  lemma PaymentsAppend(entries: seq<Entry>, e: Entry)
    ensures Payments(entries + [e]) ==
            Payments(entries) +
            if e.outcome == Created then [Payment(e.action, e.key, e.id, e.amount, e.detail)] else []
  {
    assert (entries + [e])[..|entries|] == entries;
  }

  lemma CoversAppend(entries: seq<Entry>, e: Entry, seen: set<(string, string)>)
    requires Covers(entries, seen)
    ensures Covers(entries + [e], if e.outcome == Created then seen + {(e.action, e.key)} else seen)
  {
    var after := if e.outcome == Created then seen + {(e.action, e.key)} else seen;
    forall action, key
      ensures (action, key) in after <==> Prior(entries + [e], action, key) < |entries + [e]|
    {
      PriorAppend(entries, e, action, key);
      assert (action, key) in seen <==> Prior(entries, action, key) < |entries|;
    }
  }

  lemma PerformAppends(mint: Mint, entries: seq<Entry>, c: Call, seen: set<(string, string)>)
    returns (e: Entry)
    requires c.key != "" && Covers(entries, seen)
    ensures Perform(mint, true, entries, c).0 == entries + [e]
    ensures e.outcome == Created <==> (c.action, c.key) !in seen
    ensures e.outcome == Created ==>
              e == Entry(|entries| + 1, c.action, Created, c.key, mint(c.prefix, c.key), c.amount, c.detail)
  {
    assert (c.action, c.key) in seen <==> Prior(entries, c.action, c.key) < |entries|;
    e := Perform(mint, true, entries, c).0[|entries|];
  }

  lemma FirstPaid(mint: Mint, before: seq<Payment>, a: Attempt, more: seq<Attempt>)
    ensures var c := a.call;
            before + [Payment(c.action, c.key, mint(c.prefix, c.key), c.amount, c.detail)] + PaymentsOf(mint, more) ==
            before + PaymentsOf(mint, [a] + more)
  {
    assert ([a] + more)[0] == a && ([a] + more)[1..] == more;
  }

  /** The payments made are those of the first attempts under each key. */
  lemma {:induction false} PaidAreFirsts(mint: Mint, entries: seq<Entry>, attempts: seq<Attempt>, seen: set<(string,
                                         string)>)
    requires Covers(entries, seen)
    ensures Payments(After(mint, entries, attempts)) == Payments(entries) + PaymentsOf(mint, Firsts(attempts, seen))
    decreases |attempts|
  {
    if attempts == [] {
      assert Payments(entries) + [] == Payments(entries);
    } else if !Files(attempts[0]) {
      PaidAreFirsts(mint, entries, attempts[1..], seen);
    } else {
      var c := attempts[0].call;
      var e := PerformAppends(mint, entries, c, seen);
      PaymentsAppend(entries, e);
      CoversAppend(entries, e, seen);
      if e.outcome == Created {
        PaidAreFirsts(mint, entries + [e], attempts[1..], seen + {(c.action, c.key)});
        FirstPaid(mint, Payments(entries), attempts[0], Firsts(attempts[1..], seen + {(c.action, c.key)}));
      } else {
        PaidAreFirsts(mint, entries + [e], attempts[1..], seen);
        assert Payments(entries) + [] == Payments(entries);
      }
    }
  }

  lemma {:induction false} FirstsTwice(attempts: seq<Attempt>, seen: set<(string, string)>)
    ensures Firsts(Firsts(attempts, seen), seen) == Firsts(attempts, seen)
    decreases |attempts|
  {
    if attempts != [] {
      var a := attempts[0];
      var name := (a.call.action, a.call.key);
      if !Files(a) || name in seen {
        FirstsTwice(attempts[1..], seen);
      } else {
        FirstsTwice(attempts[1..], seen + {name});
        var tail := Firsts(attempts[1..], seen + {name});
        assert ([a] + tail)[1..] == tail;
      }
    }
  }

  /** Retries move no money: the payments on the ledger, and so their total, are
      those of the same attempts with every retry and every refusal left out. */
  lemma RetriesMoveNothing(mint: Mint, attempts: seq<Attempt>)
    ensures Payments(After(mint, [], attempts)) == PaymentsOf(mint, Firsts(attempts, {}))
    ensures Payments(After(mint, [], attempts)) == Payments(After(mint, [], Firsts(attempts, {})))
    ensures Total(Payments(After(mint, [], attempts))) == Total(Payments(After(mint, [], Firsts(attempts, {}))))
  {
    PaidAreFirsts(mint, [], attempts, {});
    PaidAreFirsts(mint, [], Firsts(attempts, {}), {});
    FirstsTwice(attempts, {});
  }

  /** Whatever happens between two calls under one key, the later one is told what
      the earlier one was. */
  lemma SameReply(mint: Mint, entries: seq<Entry>, first: Call, between: seq<Attempt>, second: Call)
    requires Consistent(entries) && first.key != "" && second.action == first.action && second.key == first.key
    ensures var (filed, one) := Perform(mint, true, entries, first);
            var two := Perform(mint, true, After(mint, filed, between), second).1;
            two == Reply(one.id, one.amount, true)
  {
    var (filed, one) := Perform(mint, true, entries, first);
    PerformKeeps(mint, true, entries, first);
    AfterKeeps(mint, filed, between);
    var later := After(mint, filed, between);
    PriorAppend(entries, filed[|entries|], first.action, first.key);
    PriorPrefix(filed, later, first.action, first.key);
  }

  lemma PriorPrefix(entries: seq<Entry>, more: seq<Entry>, action: string, key: string)
    requires entries <= more && Prior(entries, action, key) < |entries|
    ensures Prior(more, action, key) == Prior(entries, action, key)
  {
    var i, j := Prior(entries, action, key), Prior(more, action, key);
    assert more[i] == entries[i];
    assert j < |entries| ==> more[j] == entries[j];
  }
}
