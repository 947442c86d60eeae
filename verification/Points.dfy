/** The points ledger: journey-service/app/points.py, lines 31-175. Each call is one transaction. */
module Points {

  const WELCOME_BONUS: int := 20
  const WELCOME: string := "WELCOME_BONUS"

  datatype Wallet = Wallet(balance: int, earned: int, spent: int, version: int)

  /** journey "" stands for None. */
  datatype Entry = Entry(user: string, journey: string, amount: int, reason: string, balanceAfter: int)

  datatype Ledger = Ledger(wallets: map<string, Wallet>, entries: seq<Entry>)

  const EMPTY: Ledger := Ledger(map[], [])

  datatype Call =
    | Open(user: string)                                                         // get_or_create_wallet
    | Earn(user: string, amount: int, reason: string, journey: string,
           later: bool)   // the caller commits its session later, whatever this call did
    | Spend(user: string, amount: int, reason: string, journey: string)

  datatype Reply = Done(balance: int, moved: int) | NoWallet | TooLittle | ManyFound

  const NEW_WALLET: Wallet := Wallet(WELCOME_BONUS, WELCOME_BONUS, 0, 1)

  function WalletOf(l: Ledger, user: string): Wallet {
    if user in l.wallets then l.wallets[user] else NEW_WALLET
  }

  /** Entries, of any user, for this journey and reason. */
  function Matches(entries: seq<Entry>, journey: string, reason: string): nat {
    if entries == [] then 0
    else Matches(entries[..|entries| - 1], journey, reason)
         + if entries[|entries| - 1].journey == journey && entries[|entries| - 1].reason == reason then 1 else 0
  }

  function Credit(l: Ledger, call: Call): Ledger
    requires call.Earn?
  {
    var w := WalletOf(l, call.user);
    var w' := Wallet(w.balance + call.amount, w.earned + call.amount, w.spent, w.version + 1);
    Ledger(l.wallets[call.user := w'],
           l.entries + [Entry(call.user, call.journey, call.amount, call.reason, w'.balance)])
  }

  function Debit(l: Ledger, call: Call): Ledger
    requires call.Spend?
  {
    var w := WalletOf(l, call.user);
    var w' := Wallet(w.balance - call.amount, w.earned, w.spent + call.amount, w.version + 1);
    Ledger(l.wallets[call.user := w'],
           l.entries + [Entry(call.user, call.journey, -call.amount, call.reason, w'.balance)])
  }

  /** A wallet made on the way, where the award itself is skipped or fails. */
  function Opened(l: Ledger, user: string): Ledger {
    if user in l.wallets then l else l.(wallets := l.wallets[user := NEW_WALLET])
  }

  /** The reply, and the tables after the commit. A call that does not commit leaves them alone,
      unless its caller commits the session later. */
  function Serve(l: Ledger, call: Call): (Reply, Ledger) {
    match call
    case Open(user) =>
      if user in l.wallets then (Done(l.wallets[user].balance, 0), l)
      else (Done(WELCOME_BONUS, 0),
            Ledger(l.wallets[user := NEW_WALLET],
                   l.entries + [Entry(user, "", WELCOME_BONUS, WELCOME, WELCOME_BONUS)]))
    case Earn(user, amount, reason, journey, later) =>
      var found := if journey == "" then 0 else Matches(l.entries, journey, reason);
      var kept := if later then Opened(l, user) else l;
      if found > 1 then (ManyFound, kept)
      else if found == 1 then (Done(WalletOf(l, user).balance, 0), kept)
      else (Done(WalletOf(l, user).balance + amount, amount), Credit(l, call))
    case Spend(user, amount, _, _) =>
      if user !in l.wallets then (NoWallet, l)
      else if l.wallets[user].balance < amount then (TooLittle, l)
      else (Done(l.wallets[user].balance - amount, amount), Debit(l, call))
  }

  function After(calls: seq<Call>): Ledger {
    if calls == [] then EMPTY else Serve(After(calls[..|calls| - 1]), calls[|calls| - 1]).1
  }

  predicate PositiveAmount(call: Call) {
    (call.Earn? || call.Spend?) ==> call.amount > 0 && call.reason != WELCOME
  }

  // ---- what the ledger adds up to -----------------------------------------------------------

  predicate Moves(e: Entry, user: string) {
    e.user == user && e.reason != WELCOME
  }

  function Sum(entries: seq<Entry>, user: string): int {
    if entries == [] then 0
    else Sum(entries[..|entries| - 1], user)
         + if Moves(entries[|entries| - 1], user) then entries[|entries| - 1].amount else 0
  }

  function Count(entries: seq<Entry>, user: string): nat {
    if entries == [] then 0
    else Count(entries[..|entries| - 1], user) + if Moves(entries[|entries| - 1], user) then 1 else 0
  }

  ghost predicate Balanced(l: Ledger) {
    && (forall u :: u in l.wallets ==>
          var w := l.wallets[u];
          && w.balance == w.earned - w.spent && w.balance >= 0
          && w.balance == WELCOME_BONUS + Sum(l.entries, u)
          && w.version == 1 + Count(l.entries, u))
    && (forall u :: u !in l.wallets ==> Sum(l.entries, u) == 0 && Count(l.entries, u) == 0)
  }

  /** Each entry records the balance its owner had after it. */
  ghost predicate RunningTotals(entries: seq<Entry>) {
    forall i :: 0 <= i < |entries| ==>
      entries[i].balanceAfter == WELCOME_BONUS + Sum(entries[..i + 1], entries[i].user)
  }

  predicate Award(e: Entry) {
    e.journey != "" && e.amount > 0
  }

  ghost predicate AwardedOnce(entries: seq<Entry>) {
    forall i, j :: 0 <= i < j < |entries| && Award(entries[j]) ==>
      !(entries[i].journey == entries[j].journey && entries[i].reason == entries[j].reason)
  }

  lemma {:induction false} NoMatch(entries: seq<Entry>, journey: string, reason: string, i: nat)
    requires Matches(entries, journey, reason) == 0 && i < |entries|
    ensures !(entries[i].journey == journey && entries[i].reason == reason)
  {
    if i < |entries| - 1 {
      NoMatch(entries[..|entries| - 1], journey, reason, i);
    }
  }

  ghost predicate Inv(l: Ledger) {
    Balanced(l) && RunningTotals(l.entries) && AwardedOnce(l.entries)
  }

  lemma SumAppend(entries: seq<Entry>, e: Entry, user: string)
    ensures Sum(entries + [e], user) == Sum(entries, user) + if Moves(e, user) then e.amount else 0
    ensures Count(entries + [e], user) == Count(entries, user) + if Moves(e, user) then 1 else 0
  {
    assert (entries + [e])[..|entries|] == entries;
  }

  lemma AppendBalanced(l: Ledger, e: Entry, w: Wallet)
    requires Balanced(l)
    requires w.balance == w.earned - w.spent && w.balance >= 0
    requires w.balance == WELCOME_BONUS + Sum(l.entries, e.user) + (if Moves(e, e.user) then e.amount else 0)
    requires w.version == 1 + Count(l.entries, e.user) + (if Moves(e, e.user) then 1 else 0)
    ensures Balanced(Ledger(l.wallets[e.user := w], l.entries + [e]))
  {
    forall u
      ensures Sum(l.entries + [e], u) == Sum(l.entries, u) + if Moves(e, u) then e.amount else 0
      ensures Count(l.entries + [e], u) == Count(l.entries, u) + if Moves(e, u) then 1 else 0
    {
      SumAppend(l.entries, e, u);
    }
  }

  lemma AppendTotals(entries: seq<Entry>, e: Entry)
    requires RunningTotals(entries)
    requires e.balanceAfter == WELCOME_BONUS + Sum(entries, e.user) + if Moves(e, e.user) then e.amount else 0
    ensures RunningTotals(entries + [e])
  {
    var after := entries + [e];
    SumAppend(entries, e, e.user);
    forall i | 0 <= i < |after|
      ensures after[i].balanceAfter == WELCOME_BONUS + Sum(after[..i + 1], after[i].user)
    {
      if i < |entries| {
        assert after[..i + 1] == entries[..i + 1];
      } else {
        assert after[..i + 1] == after;
      }
    }
  }

  lemma AppendAwards(entries: seq<Entry>, e: Entry)
    requires AwardedOnce(entries) && (Award(e) ==> Matches(entries, e.journey, e.reason) == 0)
    ensures AwardedOnce(entries + [e])
  {
    if Award(e) {
      forall i | 0 <= i < |entries|
        ensures !(entries[i].journey == e.journey && entries[i].reason == e.reason)
      {
        NoMatch(entries, e.journey, e.reason, i);
      }
    }
  }

  lemma ServeKeepsInv(l: Ledger, call: Call)
    requires Inv(l) && PositiveAmount(call)
    ensures Inv(Serve(l, call).1)
  {
    var l' := Serve(l, call).1;
    if l'.entries == l.entries {
      assert l' == l || l' == Opened(l, call.user);
    } else {
      var e := l'.entries[|l.entries|];
      AppendBalanced(l, e, l'.wallets[call.user]);
      AppendTotals(l.entries, e);
      AppendAwards(l.entries, e);
    }
  }

  /** After any sequence of calls with positive amounts every wallet adds up, no balance is
      negative, every entry records the running total, and no journey is awarded twice for the
      same reason. */
  lemma {:induction false} LedgerAddsUp(calls: seq<Call>)
    requires forall i :: 0 <= i < |calls| ==> PositiveAmount(calls[i])
    ensures Inv(After(calls))
  {
    if calls != [] {
      LedgerAddsUp(calls[..|calls| - 1]);
      ServeKeepsInv(After(calls[..|calls| - 1]), calls[|calls| - 1]);
    }
  }

  // ---- which awards are skipped ---------------------------------------------------------------

  /** Call i left an entry for this journey and reason. */
  predicate LeftEntry(calls: seq<Call>, i: int, journey: string, reason: string) {
    0 <= i < |calls| && !calls[i].Open? && calls[i].journey == journey && calls[i].reason == reason
    && Serve(After(calls[..i]), calls[i]).1.entries != After(calls[..i]).entries
  }

  /** How many calls left one. */
  function EntriesLeft(calls: seq<Call>, journey: string, reason: string): nat {
    if calls == [] then 0
    else EntriesLeft(calls[..|calls| - 1], journey, reason)
         + if LeftEntry(calls, |calls| - 1, journey, reason) then 1 else 0
  }

  lemma OneMoreEntry(entries: seq<Entry>, e: Entry, journey: string, reason: string)
    ensures Matches(entries + [e], journey, reason)
         == Matches(entries, journey, reason) + if e.journey == journey && e.reason == reason then 1 else 0
  {
    assert (entries + [e])[..|entries|] == entries;
  }

  /** A call leaves no entry or one of its own. */
  lemma OwnEntry(l: Ledger, call: Call)
    ensures var entries := Serve(l, call).1.entries;
            entries == l.entries
            || (|entries| == |l.entries| + 1 && entries == l.entries + [entries[|l.entries|]]
                && if call.Open? then entries[|l.entries|].journey == ""
                   else entries[|l.entries|].journey == call.journey && entries[|l.entries|].reason == call.reason)
  {}

  lemma {:induction false} MatchesAreCalls(calls: seq<Call>, journey: string, reason: string)
    requires journey != ""
    ensures Matches(After(calls).entries, journey, reason) == EntriesLeft(calls, journey, reason)
  {
    if calls != [] {
      var front, call := calls[..|calls| - 1], calls[|calls| - 1];
      MatchesAreCalls(front, journey, reason);
      var before, entries := After(front).entries, Serve(After(front), call).1.entries;
      OwnEntry(After(front), call);
      hide Serve;
      if entries != before {
        OneMoreEntry(before, entries[|before|], journey, reason);
      }
    }
  }

  predicate Awarded(reply: Reply, amount: int) {
    reply.Done? && reply.moved == amount
  }

  /** After any calls an award for a journey is made exactly if no call has left an entry for
      that journey and reason yet; it is skipped exactly if one has, and fails exactly if two or
      more have, spendings and other users' calls included. */
  lemma {:induction false} AwardMadeIff(calls: seq<Call>, earn: Call)
    requires earn.Earn? && earn.amount > 0 && earn.journey != ""
    ensures var reply := Serve(After(calls), earn).0;
            var n := EntriesLeft(calls, earn.journey, earn.reason);
            && (Awarded(reply, earn.amount) <==> n == 0)
            && (reply.Done? && reply.moved == 0 <==> n == 1)
            && (reply.ManyFound? <==> n >= 2)
  {
    MatchesAreCalls(calls, earn.journey, earn.reason);
  }

  predicate SpendsOnJourney(call: Call) {
    call.Spend? && call.journey != ""
  }

  /** No reason is used for awards and for spending points on a journey. */
  ghost predicate ReasonsApart(calls: seq<Call>) {
    forall i, j :: 0 <= i < |calls| && 0 <= j < |calls| && calls[i].Earn? && SpendsOnJourney(calls[j]) ==>
      calls[i].reason != calls[j].reason
  }

  predicate EarnsAt(calls: seq<Call>, i: int, journey: string, reason: string) {
    0 <= i < |calls| && calls[i].Earn? && calls[i].journey == journey && calls[i].reason == reason
  }

  ghost predicate EarnedBefore(calls: seq<Call>, journey: string, reason: string) {
    exists i :: EarnsAt(calls, i, journey, reason)
  }

  lemma {:induction false} NoEarnNoEntry(calls: seq<Call>, earn: Call)
    requires earn.Earn? && earn.journey != "" && !EarnedBefore(calls, earn.journey, earn.reason)
    requires ReasonsApart(calls + [earn])
    ensures EntriesLeft(calls, earn.journey, earn.reason) == 0
  {
    if calls != [] {
      var front, n := calls[..|calls| - 1], |calls| - 1;
      var all := calls + [earn];
      forall i ensures EarnsAt(front, i, earn.journey, earn.reason) ==> EarnsAt(calls, i, earn.journey, earn.reason) {}
      assert front + [calls[n]] == calls;
      ReasonsApartPart(front, calls[n], earn);
      NoEarnNoEntry(front, earn);
      assert !EarnsAt(calls, n, earn.journey, earn.reason);
      assert all[|calls|] == earn && all[n] == calls[n];
      assert SpendsOnJourney(calls[n]) ==> calls[n].reason != earn.reason;
    }
  }

  lemma ReasonsApartPart(front: seq<Call>, call: Call, earn: Call)
    requires ReasonsApart(front + [call] + [earn])
    ensures ReasonsApart(front + [earn])
  {
    var all, part := front + [call] + [earn], front + [earn];
    forall i, j | 0 <= i < |part| && 0 <= j < |part| && part[i].Earn? && SpendsOnJourney(part[j])
      ensures part[i].reason != part[j].reason
    {
      var k := if i < |front| then i else i + 1;
      var l := if j < |front| then j else j + 1;
      assert all[k] == part[i] && all[l] == part[j];
    }
  }

  /** The first earning call of a journey and reason leaves its entry, so a later one finds it. */
  lemma {:induction false} EarnLeavesEntry(calls: seq<Call>, journey: string, reason: string)
    requires journey != "" && EarnedBefore(calls, journey, reason)
    ensures EntriesLeft(calls, journey, reason) >= 1
  {
    var front, n := calls[..|calls| - 1], |calls| - 1;
    if EarnedBefore(front, journey, reason) {
      EarnLeavesEntry(front, journey, reason);
    } else {
      var i :| EarnsAt(calls, i, journey, reason);
      assert i < n ==> EarnsAt(front, i, journey, reason);
      MatchesAreCalls(front, journey, reason);
    }
  }

  /** Callers that do not spend on a journey under a reason for awards lose no award: it is made
      if and only if none has been asked for that journey and reason before. */
  lemma AwardedIffFirst(calls: seq<Call>, earn: Call)
    requires earn.Earn? && earn.amount > 0 && earn.journey != "" && ReasonsApart(calls + [earn])
    ensures Awarded(Serve(After(calls), earn).0, earn.amount) <==> !EarnedBefore(calls, earn.journey, earn.reason)
  {
    AwardMadeIff(calls, earn);
    if EarnedBefore(calls, earn.journey, earn.reason) {
      EarnLeavesEntry(calls, earn.journey, earn.reason);
    } else {
      NoEarnNoEntry(calls, earn);
    }
  }

  predicate SharedJourney(a: Call, b: Call) {
    a.Earn? && b.Earn? && a.journey == b.journey != ""
  }

  /** A journey is one user's. */
  ghost predicate OneUserEach(calls: seq<Call>) {
    forall i, j :: 0 <= i < |calls| && 0 <= j < |calls| && SharedJourney(calls[i], calls[j]) ==>
      calls[i].user == calls[j].user
  }

  /** And if each journey is one user's, only a request the user has made before is skipped. */
  lemma OnlyRepeatsAreSkipped(calls: seq<Call>, earn: Call)
    requires earn.Earn? && earn.amount > 0 && earn.journey != ""
    requires ReasonsApart(calls + [earn]) && OneUserEach(calls + [earn])
    ensures Awarded(Serve(After(calls), earn).0, earn.amount)
       <==> forall i :: EarnsAt(calls, i, earn.journey, earn.reason) ==> calls[i].user != earn.user
  {
    AwardedIffFirst(calls, earn);
    var all := calls + [earn];
    forall i | EarnsAt(calls, i, earn.journey, earn.reason) ensures calls[i].user == earn.user {
      assert all[i] == calls[i] && all[|calls|] == earn;
    }
  }

  /** Positions of the entries, of any user, for this journey and reason. */
  ghost function FoundAt(entries: seq<Entry>, journey: string, reason: string): set<int> {
    set i | 0 <= i < |entries| && entries[i].journey == journey && entries[i].reason == reason
  }

  lemma {:induction false} MatchesIsSetSize(entries: seq<Entry>, journey: string, reason: string)
    ensures Matches(entries, journey, reason) == |FoundAt(entries, journey, reason)|
  {
    if entries != [] {
      var n := |entries| - 1;
      MatchesIsSetSize(entries[..n], journey, reason);
      assert FoundAt(entries, journey, reason)
          == FoundAt(entries[..n], journey, reason)
             + if entries[n].journey == journey && entries[n].reason == reason then {n} else {};
    }
  }

  class Accounts {
    var wallets: map<string, Wallet>
    var entries: seq<Entry>

    ghost function Now(): Ledger
      reads this
    {
      Ledger(wallets, entries)
    }

    constructor ()
      ensures Now() == EMPTY
    {
      wallets, entries := map[], [];
    }

    method GetOrCreateWallet(user: string) returns (w: Wallet)
      modifies this
      ensures Now() == Serve(old(Now()), Open(user)).1 && user in wallets && w == wallets[user]
      ensures user in old(wallets) ==> wallets == old(wallets) && entries == old(entries)
      ensures user !in old(wallets) ==>
        && w == Wallet(20, 20, 0, 1) && wallets == old(wallets)[user := w]
        && entries == old(entries) + [Entry(user, "", 20, "WELCOME_BONUS", 20)]
    {
      if user !in wallets {
        wallets := wallets[user := NEW_WALLET];
        entries := entries + [Entry(user, "", WELCOME_BONUS, WELCOME, WELCOME_BONUS)];
      }
      w := wallets[user];
    }

    method CountMatches(journey: string, reason: string) returns (n: nat)
      ensures n == Matches(entries, journey, reason)
    {
      n := 0;
      for i := 0 to |entries|
        invariant n == Matches(entries[..i], journey, reason)
      {
        assert entries[..i + 1][..i] == entries[..i];
        if entries[i].journey == journey && entries[i].reason == reason {
          n := n + 1;
        }
      }
      assert entries[..|entries|] == entries;
    }

    /** later: the caller commits its session afterwards, and with it a wallet made on the way. */
    method EarnPoints(user: string, amount: int, reason: string, journey: string, later: bool) returns (reply: Reply)
      modifies this
      ensures (reply, Now()) == Serve(old(Now()), Earn(user, amount, reason, journey, later))
      ensures journey == "" || FoundAt(old(entries), journey, reason) == {} ==>
        var w := if user in old(wallets) then old(wallets)[user] else Wallet(20, 20, 0, 1);
        && wallets == old(wallets)[user := Wallet(w.balance + amount, w.earned + amount, w.spent, w.version + 1)]
        && entries == old(entries) + [Entry(user, journey, amount, reason, w.balance + amount)]
        && reply == Done(w.balance + amount, amount)
      ensures journey != "" && FoundAt(old(entries), journey, reason) != {} ==>
        var w := if user in old(wallets) then old(wallets)[user] else Wallet(20, 20, 0, 1);
        && entries == old(entries)
        && wallets == (if later then old(wallets)[user := w] else old(wallets))
        && reply == if |FoundAt(old(entries), journey, reason)| == 1 then Done(w.balance, 0) else ManyFound
    {
      MatchesIsSetSize(entries, journey, reason);
      var found := 0;
      if journey != "" {
        found := CountMatches(journey, reason);
      }
      if found > 0 {
        var w := if user in wallets then wallets[user] else NEW_WALLET;
        if later && user !in wallets {
          wallets := wallets[user := w];
        }
        return if found > 1 then ManyFound else Done(w.balance, 0);
      }
      var w := if user in wallets then wallets[user] else NEW_WALLET;
      w := w.(balance := w.balance + amount, earned := w.earned + amount, version := w.version + 1);
      wallets := wallets[user := w];
      entries := entries + [Entry(user, journey, amount, reason, w.balance)];
      reply := Done(w.balance, amount);
    }

    /** Takes the points exactly if the user has them; a refusal changes nothing. */
    method SpendPoints(user: string, amount: int, reason: string, journey: string) returns (reply: Reply)
      modifies this
      ensures (reply, Now()) == Serve(old(Now()), Spend(user, amount, reason, journey))
      ensures user !in old(wallets) ==> reply == NoWallet
      ensures user in old(wallets) && old(wallets)[user].balance < amount ==> reply == TooLittle
      ensures user in old(wallets) && old(wallets)[user].balance >= amount ==>
        var w := old(wallets)[user];
        && wallets == old(wallets)[user := Wallet(w.balance - amount, w.earned, w.spent + amount, w.version + 1)]
        && entries == old(entries) + [Entry(user, journey, -amount, reason, w.balance - amount)]
        && reply == Done(w.balance - amount, amount)
        && wallets[user].balance >= 0
      ensures !reply.Done? ==> wallets == old(wallets) && entries == old(entries)
    {
      if user !in wallets {
        return NoWallet;
      }
      var w := wallets[user];
      if w.balance < amount {
        return TooLittle;
      }
      w := w.(balance := w.balance - amount, spent := w.spent + amount, version := w.version + 1);
      wallets := wallets[user := w];
      entries := entries + [Entry(user, journey, -amount, reason, w.balance)];
      reply := Done(w.balance, amount);
    }
  }
}
