/** The browser-storage "database" `DB` of js/db.js. Each collection lives
    under its own storage key and every operation reads the whole collection,
    changes it and writes it back. The class keeps one slot per key; a slot
    with nothing stored, or with text that does not parse, reads as an empty
    collection (js/db.js:33-41). The stored sessions, the fresh-id source and
    the clock are parameters. */
module Database {
  import opened Seqs
  import opened Calendar
  import opened Records
  import opened Ledger
  import opened Balances

  /** What one storage key holds. */
  datatype Slot<T> = Missing | Corrupt | Saved(items: seq<T>)

  /** `DB.get(key)`. */
  function Load<T>(slot: Slot<T>): seq<T>
  {
    if slot.Saved? then slot.items else []
  }

  /** The administrator seeded into an empty admin collection. */
  function DefaultAdmin(now: string): Admin
  {
    Admin("admin_default", "100749", "70752855484", now)
  }

  /** Actor of an audit entry: `currentAdmin.username || 'Unknown'`. */
  function LogActor(admin: Option<Admin>): (a: string)
    ensures a != ""
    ensures admin.Some? && admin.value.username != "" ==> a == admin.value.username
    ensures admin.None? || admin.value.username == "" ==> a == "Unknown"
  {
    if admin.Some? && admin.value.username != "" then admin.value.username else "Unknown"
  }

  /** `users.filter(u => u.id !== id)`. */
  function WithoutUser(users: seq<User>, id: string): (r: seq<User>)
    ensures forall u :: u in r <==> u in users && u.id != id
  {
    Filter(users, (u: User) => u.id != id)
  }

  /** `admins.filter(a => a.id !== id)`. */
  function WithoutAdmin(admins: seq<Admin>, id: string): (r: seq<Admin>)
    ensures forall a :: a in r <==> a in admins && a.id != id
  {
    Filter(admins, (a: Admin) => a.id != id)
  }

  /** `goals.filter(g => g.userId === userId)`. */
  function GoalsOf(goals: seq<Goal>, userId: string): (r: seq<Goal>)
    ensures forall g :: g in r <==> g in goals && g.userId == userId
  {
    Filter(goals, (g: Goal) => g.userId == userId)
  }

  /** The `push` of the original and the `for` loop of `addTransaction`
      (js/db.js:100-110): the original, then occurrence `i` for `i` from 1
      while `i < count`, each a copy with id `freshId(i)` and the date `i`
      months after the original's. */
  method AppendOccurrences(prior: seq<Transaction>, t: Transaction, count: int, freshId: nat -> string)
    returns (r: seq<Transaction>)
    ensures r == prior + Expansion(t, count, freshId)
  {
    var base := t.date;
    r := prior + [t];
    var i := 1;
    while i < count
      invariant 1 <= i && (i <= count || i == 1)
      invariant r == prior + Expansion(t, i, freshId)
    {
      var next := t.(id := freshId(i), date := AddMonths(base, i));
      r := r + [next];
      i := i + 1;
    }
  }

  class Db {
    var users: Slot<User>
    var admins: Slot<Admin>
    var transactions: Slot<Transaction>
    var goals: Slot<Goal>
    var savings: Slot<Savings>
    var logs: Slot<LogEntry>

    /** The store as the page finds it in the browser. */
    constructor (users: Slot<User>, admins: Slot<Admin>, transactions: Slot<Transaction>,
                 goals: Slot<Goal>, savings: Slot<Savings>, logs: Slot<LogEntry>)
      ensures this.users == users && this.admins == admins && this.transactions == transactions
      ensures this.goals == goals && this.savings == savings && this.logs == logs
    {
      this.users, this.admins, this.transactions := users, admins, transactions;
      this.goals, this.savings, this.logs := goals, savings, logs;
    }

    /** `DB.init`: seeds the default administrator when no admin is stored;
        otherwise nothing is written. */
    method Init(now: string)
      modifies this`admins
      ensures |old(Load(admins))| == 0 ==> admins == Saved([DefaultAdmin(now)])
      ensures |old(Load(admins))| != 0 ==> admins == old(admins)
    {
      var stored := Load(admins);
      if |stored| == 0 {
        stored := stored + [DefaultAdmin(now)];
        admins := Saved(stored);
      }
    }

    /** `DB.logAction`: the new entry goes first, so the log reads newest first. */
    method LogAction(action: string, target: string, id: string, now: string, admin: Option<Admin>)
      modifies this`logs
      ensures logs == Saved([LogEntry(id, now, action, target, LogActor(admin))] + old(Load(logs)))
    {
      var entries := Load(logs);
      entries := [LogEntry(id, now, action, target, LogActor(admin))] + entries;
      logs := Saved(entries);
    }

    /** `DB.addUser`: the input gets an id and a creation time, is appended, and
        the creation is logged. */
    method AddUser(user: User, id: string, now: string, logId: string, logTime: string, admin: Option<Admin>)
      returns (added: User)
      modifies this`users, this`logs
      ensures added == user.(id := id, createdAt := now)
      ensures users == Saved(old(Load(users)) + [added])
      ensures logs == Saved([LogEntry(logId, logTime, "Criou usuário", added.name, LogActor(admin))] + old(Load(logs)))
    {
      var stored := Load(users);
      added := user.(id := id, createdAt := now);
      stored := stored + [added];
      users := Saved(stored);
      LogAction("Criou usuário", added.name, logId, logTime, admin);
    }

    /** `DB.deleteUser`: every user with that id is removed (the filtered list
        is written even when none matched); the deletion is logged, with the
        first match's name, only when one existed. */
    method DeleteUser(id: string, logId: string, logTime: string, admin: Option<Admin>)
      modifies this`users, this`logs
      ensures users == Saved(WithoutUser(old(Load(users)), id))
      ensures UserWithId(old(Load(users)), id).None? ==> logs == old(logs)
      ensures UserWithId(old(Load(users)), id).Some? ==>
        logs == Saved([LogEntry(logId, logTime, "Excluiu usuário", UserWithId(old(Load(users)), id).value.name,
                                LogActor(admin))] + old(Load(logs)))
    {
      var stored := Load(users);
      var user := UserWithId(stored, id);
      stored := WithoutUser(stored, id);
      users := Saved(stored);
      if user.Some? {
        LogAction("Excluiu usuário", user.value.name, logId, logTime, admin);
      }
    }

    /** `DB.addAdmin`. */
    method AddAdmin(newAdmin: Admin, id: string, now: string, logId: string, logTime: string, admin: Option<Admin>)
      returns (added: Admin)
      modifies this`admins, this`logs
      ensures added == newAdmin.(id := id, createdAt := now)
      ensures admins == Saved(old(Load(admins)) + [added])
      ensures logs == Saved([LogEntry(logId, logTime, "Criou admin", added.username, LogActor(admin))] + old(Load(logs)))
    {
      var stored := Load(admins);
      added := newAdmin.(id := id, createdAt := now);
      stored := stored + [added];
      admins := Saved(stored);
      LogAction("Criou admin", added.username, logId, logTime, admin);
    }

    /** `DB.deleteAdmin`: no admin is protected, the last one included. */
    method DeleteAdmin(id: string, logId: string, logTime: string, admin: Option<Admin>)
      modifies this`admins, this`logs
      ensures admins == Saved(WithoutAdmin(old(Load(admins)), id))
      ensures AdminWithId(old(Load(admins)), id).None? ==> logs == old(logs)
      ensures AdminWithId(old(Load(admins)), id).Some? ==>
        logs == Saved([LogEntry(logId, logTime, "Excluiu admin", AdminWithId(old(Load(admins)), id).value.username,
                                LogActor(admin))] + old(Load(logs)))
    {
      var stored := Load(admins);
      var found := AdminWithId(stored, id);
      stored := WithoutAdmin(stored, id);
      admins := Saved(stored);
      if found.Some? {
        LogAction("Excluiu admin", found.value.username, logId, logTime, admin);
      }
    }

    /** `DB.getTransactions`. */
    function GetTransactions(userId: string): (r: seq<Transaction>)
      reads this
      ensures forall t :: t in r <==> t in Load(transactions) && t.userId == userId
    {
      TransactionsOf(Load(transactions), userId)
    }

    /** `DB.addTransaction`: the input gets the id `freshId(0)` and a creation
        time and is appended; a recurring one is followed by its siblings,
        occurrence `i` taking the id `freshId(i)`. Returns the original. */
    method AddTransaction(input: Transaction, freshId: nat -> string, now: string) returns (added: Transaction)
      modifies this`transactions
      ensures added == input.(id := freshId(0), createdAt := now)
      ensures transactions == Saved(old(Load(transactions)) + Recorded(added, freshId))
    {
      var stored := Load(transactions);
      added := input.(id := freshId(0), createdAt := now);
      if Recurring(added.recurrence) {
        stored := AppendOccurrences(stored, added, RecurrenceCount(added.recurrence), freshId);
      } else {
        stored := stored + [added];
      }
      transactions := Saved(stored);
    }

    /** `DB.deleteTransaction`: removes every record with that id, keeping the
        others in order; an unknown id leaves the records as they were. */
    method DeleteTransaction(id: string)
      modifies this`transactions
      ensures transactions == Saved(WithoutTransaction(old(Load(transactions)), id))
    {
      var stored := Load(transactions);
      stored := WithoutTransaction(stored, id);
      transactions := Saved(stored);
    }

    /** `DB.getGoals`. */
    function GetGoals(userId: string): (r: seq<Goal>)
      reads this
      ensures forall g :: g in r <==> g in Load(goals) && g.userId == userId
    {
      GoalsOf(Load(goals), userId)
    }

    /** `DB.addGoal`: the input gets an id and an empty history and is appended;
        a goal created at zero keeps every goal balanced. */
    method AddGoal(goal: Goal, id: string) returns (added: Goal)
      modifies this`goals
      ensures added == goal.(id := id, history := [])
      ensures goals == Saved(old(Load(goals)) + [added])
      ensures GoalsBalanced(old(Load(goals))) && goal.currentAmount == 0 ==> GoalsBalanced(Load(goals))
    {
      var stored := Load(goals);
      added := goal.(id := id, history := []);
      stored := stored + [added];
      goals := Saved(stored);
    }

    /** `DB.updateGoalBalance`: an unknown goal and a withdrawal above the
        balance fail and write nothing; otherwise the first goal with that id
        gets its new balance and exactly one history entry, appended, whose
        actor is the stored user's name, else the stored admin's username,
        else "Desconhecido". */
    method UpdateGoalBalance(goalId: string, amount: int, kind: string, observation: Option<string>,
                             entryId: string, now: string, user: Option<User>, admin: Option<Admin>)
      returns (r: Outcome)
      modifies this`goals
      ensures var entry := HistoryEntry(entryId, kind, amount, now, ObservationText(observation), GoalActor(user, admin));
        match GoalMovement(old(Load(goals)), goalId, entry)
        case Refused(m) => r == Failure(m) && goals == old(goals)
        case Moved(after) => r == Success && goals == Saved(after)
      ensures GoalsBalanced(old(Load(goals))) && amount >= 0 ==> GoalsBalanced(Load(goals))
    {
      var stored := Load(goals);
      var found := GoalIndex(stored, goalId);
      if found.None? {
        return Failure(GoalNotFound);
      }
      var k := found.value;
      var goal := stored[k];
      var balance := goal.currentAmount;
      if kind == "deposit" {
        balance := balance + amount;
      } else if kind == "withdraw" {
        if goal.currentAmount < amount {
          return Failure(GoalInsufficient);
        }
        balance := balance - amount;
      }
      var entry := HistoryEntry(entryId, kind, amount, now, ObservationText(observation), GoalActor(user, admin));
      goal := goal.(currentAmount := balance, history := goal.history + [entry]);
      stored := stored[k := goal];
      if GoalsBalanced(old(Load(goals))) && amount >= 0 {
        GoalMovementKeepsBalanced(old(Load(goals)), goalId, entry);
      }
      goals := Saved(stored);
      r := Success;
    }

    /** `DB.getSavings`: the stored record, or a zero record that is not saved. */
    function GetSavings(userId: string): (r: Savings)
      reads this
      ensures r.userId == userId
      ensures (forall j :: 0 <= j < |Load(savings)| ==> Load(savings)[j].userId != userId) ==> r == Savings(userId, 0, [])
      ensures (exists j :: 0 <= j < |Load(savings)| && Load(savings)[j].userId == userId) ==>
        exists k :: 0 <= k < |Load(savings)| && Load(savings)[k] == r
          && forall j :: 0 <= j < k ==> Load(savings)[j].userId != userId
    {
      SavingsOf(Load(savings), userId)
    }

    /** `DB.updateSavings`: a withdrawal above the balance fails and writes
        nothing, not even a new record; otherwise the user's record, created
        at zero if missing, gets its new balance and exactly one history entry
        (actor: the stored user's name, else "Desconhecido") and replaces
        every record of that user. */
    method UpdateSavings(userId: string, amount: int, kind: string, observation: Option<string>,
                         entryId: string, now: string, user: Option<User>)
      returns (r: Outcome)
      modifies this`savings
      ensures var entry := HistoryEntry(entryId, kind, amount, now, ObservationText(observation), SavingsActor(user));
        match SavingsMovement(old(Load(savings)), userId, entry)
        case Refused(m) => r == Failure(m) && savings == old(savings)
        case Moved(after) => r == Success && savings == Saved(after)
      ensures OnePerUser(old(Load(savings))) ==> OnePerUser(Load(savings))
      ensures SavingsBalanced(old(Load(savings))) && amount >= 0 ==> SavingsBalanced(Load(savings))
    {
      var all := Load(savings);
      ghost var stored := all;
      var record: Savings;
      var found := SavingsIndex(all, userId);
      if found.None? {
        record := Savings(userId, 0, []);
        all := all + [record];
      } else {
        record := all[found.value];
      }
      assert all == WithSavingsRecord(stored, userId) && record == SavingsOf(stored, userId);
      var balance := record.amount;
      if kind == "deposit" {
        balance := balance + amount;
      } else if kind == "withdraw" {
        if record.amount < amount {
          return Failure(SavingsInsufficient);
        }
        balance := balance - amount;
      }
      var entry := HistoryEntry(entryId, kind, amount, now, ObservationText(observation), SavingsActor(user));
      assert ApplyBalance(record.amount, amount, kind) == Some(balance);
      record := record.(amount := balance, history := record.history + [entry]);
      all := ReplaceSavings(all, userId, record);
      assert SavingsMovement(stored, userId, entry) == Moved(all);
      if OnePerUser(stored) {
        SavingsMovementEffect(stored, userId, entry);
      }
      if SavingsBalanced(stored) && amount >= 0 {
        SavingsMovementKeepsBalanced(stored, userId, entry);
      }
      savings := Saved(all);
      r := Success;
    }

    /** `DB.getLogs`, newest first. */
    function GetLogs(): seq<LogEntry>
      reads this
    {
      Load(logs)
    }
  }
}
