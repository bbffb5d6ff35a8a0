/** The records the application stores, and the lookups by key that several
    services share. Amounts are whole cents; ids and timestamps are opaque
    strings supplied from outside (a fresh-id source and the clock). */
module Records {
  import opened Seqs
  import opened Calendar

  datatype User = User(id: string, name: string, role: string, createdAt: string)

  datatype Admin = Admin(id: string, username: string, password: string, createdAt: string)

  /** `kind` is the record's `type` ("income" or "expense" from the form);
      an empty `recurrence` stands for an absent one. */
  datatype Transaction = Transaction(
    id: string,
    userId: string,
    kind: string,
    amount: int,
    category: string,
    description: string,
    date: Date,
    time: string,
    recurrence: string,
    receiptUrl: Option<string>,
    createdAt: string)

  /** A transaction's amount, as a function to sum over. */
  function Amount(t: Transaction): int
  {
    t.amount
  }

  /** One deposit or withdrawal on a goal or on a user's savings. */
  datatype HistoryEntry = HistoryEntry(
    id: string,
    kind: string,
    amount: int,
    date: string,
    observation: string,
    actor: string)

  datatype Goal = Goal(
    id: string,
    userId: string,
    title: string,
    targetAmount: int,
    currentAmount: int,
    history: seq<HistoryEntry>)

  datatype Savings = Savings(userId: string, amount: int, history: seq<HistoryEntry>)

  datatype LogEntry = LogEntry(id: string, timestamp: string, action: string, target: string, actor: string)

  /** `users.find(u => u.id === id)`. */
  function UserWithId(users: seq<User>, id: string): (r: Option<User>)
    ensures r.None? <==> forall j :: 0 <= j < |users| ==> users[j].id != id
    ensures r.Some? ==>
      exists k :: 0 <= k < |users| && users[k] == r.value && r.value.id == id
        && forall j :: 0 <= j < k ==> users[j].id != id
  {
    FindFirst(users, (u: User) => u.id == id)
  }

  /** `admins.find(a => a.id === id)`. */
  function AdminWithId(admins: seq<Admin>, id: string): (r: Option<Admin>)
    ensures r.None? <==> forall j :: 0 <= j < |admins| ==> admins[j].id != id
    ensures r.Some? ==>
      exists k :: 0 <= k < |admins| && admins[k] == r.value && r.value.id == id
        && forall j :: 0 <= j < k ==> admins[j].id != id
  {
    FindFirst(admins, (a: Admin) => a.id == id)
  }
}
