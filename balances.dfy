/** The balance rule shared by `DB.updateGoalBalance` (js/db.js:134-167) and
    `DB.updateSavings` (js/db.js:174-208), the history it leaves behind, and
    the per-user savings list, as functions on values. */
module Balances {
  import opened Seqs
  import opened Records

  datatype Outcome = Success | Failure(message: string)

  /** The result of a deposit or withdrawal on a whole collection: the
      collection to write back, or the message of a refusal (nothing written). */
  datatype Movement<T> = Moved(items: seq<T>) | Refused(message: string)

  const GoalNotFound: string := "Meta não encontrada."
  const GoalInsufficient: string := "Saldo insuficiente na meta!"
  const SavingsInsufficient: string := "Saldo insuficiente!"
  const UnknownActor: string := "Desconhecido"

  /** The signed effect of one movement: deposits add, withdrawals subtract,
      and any other kind leaves the balance as it is. */
  function Signed(kind: string, amount: int): int
  {
    if kind == "deposit" then amount else if kind == "withdraw" then -amount else 0
  }

  /** The new balance, or `None` when a withdrawal exceeds the balance
      (a withdrawal of exactly the balance is allowed). */
  function ApplyBalance(balance: int, amount: int, kind: string): (r: Option<int>)
    ensures r.None? <==> kind == "withdraw" && balance < amount
    ensures r.Some? ==> r.value == balance + Signed(kind, amount)
    ensures r.Some? && balance >= 0 && amount >= 0 ==> r.value >= 0
  {
    if kind == "deposit" then Some(balance + amount)
    else if kind == "withdraw" then (if balance < amount then None else Some(balance - amount))
    else Some(balance)
  }

  /** Deposits minus withdrawals recorded in a history. */
  function Net(history: seq<HistoryEntry>): int
  {
    Total(history, (e: HistoryEntry) => Signed(e.kind, e.amount))
  }

  /** A balance agrees with its history and is not negative. */
  predicate Balanced(balance: int, history: seq<HistoryEntry>)
  {
    balance >= 0 && balance == Net(history)
  }

  /** `observation || ''`. */
  function ObservationText(observation: Option<string>): string
  {
    if observation.Some? then observation.value else ""
  }

  /** Actor of a goal movement: `currentUser.name || currentAdmin.username || 'Desconhecido'`,
      read from the two stored sessions. */
  function GoalActor(user: Option<User>, admin: Option<Admin>): (a: string)
    ensures a != ""
    ensures user.Some? && user.value.name != "" ==> a == user.value.name
    ensures (user.None? || user.value.name == "") && admin.Some? && admin.value.username != "" ==> a == admin.value.username
    ensures (user.None? || user.value.name == "") && (admin.None? || admin.value.username == "") ==> a == UnknownActor
  {
    if user.Some? && user.value.name != "" then user.value.name
    else if admin.Some? && admin.value.username != "" then admin.value.username
    else UnknownActor
  }

  /** Actor of a savings movement: `currentUser.name || 'Desconhecido'`; an
      admin session is never consulted. */
  function SavingsActor(user: Option<User>): (a: string)
    ensures a != ""
    ensures a == GoalActor(user, None)
  {
    if user.Some? && user.value.name != "" then user.value.name else UnknownActor
  }

  /** The balance and history after a successful movement: the new balance and
      exactly one more entry, at the end. */
  lemma {:induction false} MovementKeepsBalanced(
    balance: int, history: seq<HistoryEntry>, entry: HistoryEntry, newBalance: int)
    requires Balanced(balance, history)
    requires entry.amount >= 0
    requires ApplyBalance(balance, entry.amount, entry.kind) == Some(newBalance)
    ensures Balanced(newBalance, history + [entry])
  {
    var h := history + [entry];
    assert h[..|h| - 1] == history;
  }

  /** The balance reached by applying the movements in order from zero, or
      `None` if one of them would have been rejected. */
  function Replay(entries: seq<HistoryEntry>): Option<int>
  {
    if |entries| == 0 then Some(0)
    else match Replay(entries[..|entries| - 1])
      case None => None
      case Some(b) => ApplyBalance(b, entries[|entries| - 1].amount, entries[|entries| - 1].kind)
  }

  /** Starting from zero with no history, any sequence of accepted movements of
      non-negative amounts leaves a balance equal to deposits minus withdrawals. */
  lemma {:induction false} ReplayBalanced(entries: seq<HistoryEntry>, balance: int)
    requires forall j :: 0 <= j < |entries| ==> entries[j].amount >= 0
    requires Replay(entries) == Some(balance)
    ensures Balanced(balance, entries)
  {
    if |entries| > 0 {
      var prefix := entries[..|entries| - 1];
      var last := entries[|entries| - 1];
      var b :| Replay(prefix) == Some(b) && ApplyBalance(b, last.amount, last.kind) == Some(balance);
      ReplayBalanced(prefix, b);
      assert prefix + [last] == entries;
      MovementKeepsBalanced(b, prefix, last, balance);
    }
  }

  /** The scenario of a goal with 400 deposited: withdrawing 500 is refused,
      withdrawing 400 empties it. */
  lemma WithdrawScenario()
    ensures ApplyBalance(0, 400, "deposit") == Some(400)
    ensures ApplyBalance(400, 500, "withdraw") == None
    ensures ApplyBalance(400, 400, "withdraw") == Some(0)
  {
  }

  /** `allSavings.find(s => s.userId === userId)`, as an index. */
  function SavingsIndex(all: seq<Savings>, userId: string): (r: Option<nat>)
    ensures r.None? <==> forall j :: 0 <= j < |all| ==> all[j].userId != userId
    ensures r.Some? ==> r.value < |all| && all[r.value].userId == userId
    ensures r.Some? ==> forall j :: 0 <= j < r.value ==> all[j].userId != userId
  {
    FirstIndex(all, (s: Savings) => s.userId == userId)
  }

  /** `DB.getSavings`: the stored record, or a zero balance with no history. */
  function SavingsOf(all: seq<Savings>, userId: string): (r: Savings)
    ensures r.userId == userId
    ensures (forall j :: 0 <= j < |all| ==> all[j].userId != userId) ==> r == Savings(userId, 0, [])
    ensures (exists j :: 0 <= j < |all| && all[j].userId == userId) ==>
      exists k :: 0 <= k < |all| && all[k] == r && forall j :: 0 <= j < k ==> all[j].userId != userId
  {
    match SavingsIndex(all, userId)
    case None => Savings(userId, 0, [])
    case Some(k) => all[k]
  }

  /** The savings list with a zero record appended for a user who has none:
      the stored records stay where they are, and the user's record is then
      the one `getSavings` would have made up. */
  function WithSavingsRecord(all: seq<Savings>, userId: string): (r: seq<Savings>)
    ensures |r| == |all| + (if SavingsIndex(all, userId).None? then 1 else 0)
    ensures r[..|all|] == all
    ensures SavingsIndex(r, userId).Some?
    ensures SavingsOf(r, userId) == SavingsOf(all, userId)
  {
    if SavingsIndex(all, userId).Some? then all
    else
      var r := all + [Savings(userId, 0, [])];
      assert r[..|all|] == all;
      assert r[|all|].userId == userId;
      assert SavingsIndex(r, userId) == Some(|all|);
      r
  }

  /** `allSavings.map(s => s.userId === userId ? userSavings : s)`. */
  function ReplaceSavings(all: seq<Savings>, userId: string, record: Savings): (r: seq<Savings>)
    ensures |r| == |all|
    ensures forall j :: 0 <= j < |all| ==> r[j] == if all[j].userId == userId then record else all[j]
  {
    seq(|all|, j requires 0 <= j < |all| => if all[j].userId == userId then record else all[j])
  }

  /** No two savings records belong to the same user. */
  predicate OnePerUser(all: seq<Savings>)
  {
    forall i, j :: 0 <= i < j < |all| ==> all[i].userId != all[j].userId
  }

  /** A savings update keeps one record per user, and afterwards the user has
      exactly one record, which is the updated one. */
  lemma SavingsUpdateKeepsOnePerUser(all: seq<Savings>, userId: string, record: Savings)
    requires OnePerUser(all)
    requires record.userId == userId
    ensures var r := ReplaceSavings(WithSavingsRecord(all, userId), userId, record);
            && OnePerUser(r)
            && SavingsIndex(r, userId).Some?
            && SavingsOf(r, userId) == record
  {
    var w := WithSavingsRecord(all, userId);
    var r := ReplaceSavings(w, userId, record);
    var k: nat;
    match SavingsIndex(all, userId) {
      case Some(i) =>
        k := i;
      case None =>
        k := |all|;
        assert w[k].userId == userId;
        assert OnePerUser(w);
    }
    forall i, j | 0 <= i < j < |r|
      ensures r[i].userId != r[j].userId
    {
      assert r[i].userId == w[i].userId && r[j].userId == w[j].userId;
    }
    assert r[k] == record;
  }

  /** `goals.find(g => g.id === goalId)`, as an index. */
  function GoalIndex(goals: seq<Goal>, goalId: string): (r: Option<nat>)
    ensures r.None? <==> forall j :: 0 <= j < |goals| ==> goals[j].id != goalId
    ensures r.Some? ==> r.value < |goals| && goals[r.value].id == goalId
    ensures r.Some? ==> forall j :: 0 <= j < r.value ==> goals[j].id != goalId
  {
    FirstIndex(goals, (g: Goal) => g.id == goalId)
  }

  /** Every goal's balance is non-negative and equals its deposits minus its withdrawals. */
  predicate GoalsBalanced(goals: seq<Goal>)
  {
    forall j :: 0 <= j < |goals| ==> Balanced(goals[j].currentAmount, goals[j].history)
  }

  /** Every savings balance is non-negative and equals its deposits minus its withdrawals. */
  predicate SavingsBalanced(all: seq<Savings>)
  {
    forall j :: 0 <= j < |all| ==> Balanced(all[j].amount, all[j].history)
  }

  /** What `updateGoalBalance` does to the goal list, for the history entry it
      would record (whose kind and amount are the call's). */
  function GoalMovement(goals: seq<Goal>, goalId: string, entry: HistoryEntry): Movement<Goal>
  {
    match GoalIndex(goals, goalId)
    case None => Refused(GoalNotFound)
    case Some(k) =>
      match ApplyBalance(goals[k].currentAmount, entry.amount, entry.kind)
      case None => Refused(GoalInsufficient)
      case Some(b) => Moved(goals[k := goals[k].(currentAmount := b, history := goals[k].history + [entry])])
  }

  /** A goal movement is refused exactly when the goal is missing or a
      withdrawal exceeds its balance; when it succeeds, only the first goal with
      that id changes, its balance moves by the signed amount and its history
      grows by exactly the new entry. */
  lemma GoalMovementEffect(goals: seq<Goal>, goalId: string, entry: HistoryEntry)
    ensures GoalIndex(goals, goalId).None? ==> GoalMovement(goals, goalId, entry) == Refused(GoalNotFound)
    ensures (GoalIndex(goals, goalId).Some? && entry.kind == "withdraw"
             && goals[GoalIndex(goals, goalId).value].currentAmount < entry.amount) ==>
      GoalMovement(goals, goalId, entry) == Refused(GoalInsufficient)
    ensures GoalIndex(goals, goalId).Some? ==>
      var k := GoalIndex(goals, goalId).value;
      match GoalMovement(goals, goalId, entry)
      case Refused(m) =>
        m == GoalInsufficient && entry.kind == "withdraw" && goals[k].currentAmount < entry.amount
      case Moved(after) =>
        && |after| == |goals|
        && (forall j :: 0 <= j < |goals| && j != k ==> after[j] == goals[j])
        && after[k].currentAmount == goals[k].currentAmount + Signed(entry.kind, entry.amount)
        && after[k].history == goals[k].history + [entry]
        && after[k].(currentAmount := goals[k].currentAmount, history := goals[k].history) == goals[k]
  {
  }

  /** Accepted movements of non-negative amounts keep every goal balanced. */
  lemma GoalMovementKeepsBalanced(goals: seq<Goal>, goalId: string, entry: HistoryEntry)
    requires GoalsBalanced(goals) && entry.amount >= 0
    ensures GoalMovement(goals, goalId, entry).Moved? ==> GoalsBalanced(GoalMovement(goals, goalId, entry).items)
  {
    if GoalMovement(goals, goalId, entry).Moved? {
      var k := GoalIndex(goals, goalId).value;
      var g := goals[k];
      var b := ApplyBalance(g.currentAmount, entry.amount, entry.kind).value;
      MovementKeepsBalanced(g.currentAmount, g.history, entry, b);
    }
  }

  /** What `updateSavings` does to the savings list: the user's record (a zero
      one, added at the end, if there is none) takes the new balance and entry
      and replaces every record of that user; a refused withdrawal writes nothing. */
  function SavingsMovement(all: seq<Savings>, userId: string, entry: HistoryEntry): Movement<Savings>
  {
    var current := SavingsOf(all, userId);
    match ApplyBalance(current.amount, entry.amount, entry.kind)
    case None => Refused(SavingsInsufficient)
    case Some(b) =>
      Moved(ReplaceSavings(WithSavingsRecord(all, userId), userId,
                           current.(amount := b, history := current.history + [entry])))
  }

  /** A savings movement is refused exactly when a withdrawal exceeds the
      balance (a user without a record has balance zero); on success the
      user's record afterwards is the old one, or a zero one, with the balance
      moved by the signed amount and exactly the new entry appended. */
  lemma SavingsMovementEffect(all: seq<Savings>, userId: string, entry: HistoryEntry)
    requires OnePerUser(all)
    ensures entry.kind == "withdraw" && SavingsOf(all, userId).amount < entry.amount ==>
      SavingsMovement(all, userId, entry) == Refused(SavingsInsufficient)
    ensures var current := SavingsOf(all, userId);
      match SavingsMovement(all, userId, entry)
      case Refused(m) =>
        m == SavingsInsufficient && entry.kind == "withdraw" && current.amount < entry.amount
      case Moved(after) =>
        && |after| == |all| + (if SavingsIndex(all, userId).None? then 1 else 0)
        && (forall j :: 0 <= j < |all| && all[j].userId != userId ==> after[j] == all[j])
        && OnePerUser(after)
        && SavingsIndex(after, userId).Some?
        && SavingsOf(after, userId).amount == current.amount + Signed(entry.kind, entry.amount)
        && SavingsOf(after, userId).history == current.history + [entry]
        && (forall s :: s in all && s.userId != userId ==> s in after)
  {
    var current := SavingsOf(all, userId);
    if SavingsMovement(all, userId, entry).Moved? {
      var b := ApplyBalance(current.amount, entry.amount, entry.kind).value;
      var updated := current.(amount := b, history := current.history + [entry]);
      SavingsUpdateKeepsOnePerUser(all, userId, updated);
      var w := WithSavingsRecord(all, userId);
      var after := ReplaceSavings(w, userId, updated);
      forall s | s in all && s.userId != userId
        ensures s in after
      {
        var j :| 0 <= j < |all| && all[j] == s;
        assert w[j] == s;
        assert after[j] == s;
      }
    }
  }

  /** Accepted savings movements of non-negative amounts keep every balance balanced. */
  lemma SavingsMovementKeepsBalanced(all: seq<Savings>, userId: string, entry: HistoryEntry)
    requires SavingsBalanced(all) && entry.amount >= 0
    ensures SavingsMovement(all, userId, entry).Moved? ==> SavingsBalanced(SavingsMovement(all, userId, entry).items)
  {
    var current := SavingsOf(all, userId);
    if SavingsMovement(all, userId, entry).Moved? {
      assert Balanced(current.amount, current.history) by {
        if SavingsIndex(all, userId).Some? {
          assert current == all[SavingsIndex(all, userId).value];
        }
      }
      var b := ApplyBalance(current.amount, entry.amount, entry.kind).value;
      MovementKeepsBalanced(current.amount, current.history, entry, b);
      var w := WithSavingsRecord(all, userId);
      assert SavingsBalanced(w);
    }
  }
}
