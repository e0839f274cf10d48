/** One way to hold the state of a chain in a shard state: its numbers in a row. */
module ChainPackings {
  import opened Common
  import opened Messages
  import opened Executor
  import opened BlockSpec
  import Chains
  import F = FinalitySpec
  import opened ChainStorages

  function Folded(i: int): nat { if i < 0 then -2 * i - 1 else 2 * i }

  function Unfolded(n: nat): int { if n % 2 == 0 then n / 2 else -((n + 1) / 2) }

  // ---- accounts, five numbers each ----

  function OneAccount(id: AccountId, e: ShardAccount): seq<nat> {
    [id, e.account.balance, e.account.lastTrTime, e.account.data, e.lastTransLt]
  }

  ghost function Pick<T>(s: set<T>): (x: T)
    requires s != {}
    ensures x in s
  {
    var x :| x in s;
    x
  }

  ghost function AccountNumbers(accounts: Accounts): seq<nat>
    decreases |accounts|
  {
    if accounts.Keys == {} then [] else
      var id := Pick(accounts.Keys);
      OneAccount(id, accounts[id]) + AccountNumbers(accounts - {id})
  }

  function ToAccounts(ns: seq<nat>): Accounts
    decreases |ns|
  {
    if |ns| < 5 then map[] else ToAccounts(ns[5..])[ns[0] := ShardAccount(Account(ns[1], ns[2], ns[3]), ns[4])]
  }

  lemma {:induction false} AccountsComeBack(accounts: Accounts)
    ensures ToAccounts(AccountNumbers(accounts)) == accounts
    decreases |accounts|
  {
    if accounts.Keys == {} {
      assert accounts == map[];
    } else {
      var id := Pick(accounts.Keys);
      var rest := accounts - {id};
      AccountsComeBack(rest);
      assert AccountNumbers(accounts)[5..] == AccountNumbers(rest);
      assert rest[id := accounts[id]] == accounts;
    }
  }

  // ---- messages, eight numbers each ----

  function OneMessage(m: Message): seq<nat> {
    [m.src, Folded(m.dst.workchain), m.dst.account, m.createdLt, m.value, m.fwdFee, if m.bounced then 1 else 0, m.body]
  }

  ghost function MessageNumbers(queue: set<Message>): seq<nat>
    decreases |queue|
  {
    if queue == {} then [] else
      var m := Pick(queue);
      OneMessage(m) + MessageNumbers(queue - {m})
  }

  function ToMessages(ns: seq<nat>): set<Message>
    decreases |ns|
  {
    if |ns| < 8 then {} else
      {Message(ns[0], Address(Unfolded(ns[1]), ns[2]), ns[3], ns[4], ns[5], ns[6] == 1, ns[7])} + ToMessages(ns[8..])
  }

  lemma {:induction false} MessagesComeBack(queue: set<Message>)
    ensures ToMessages(MessageNumbers(queue)) == queue
    decreases |queue|
  {
    if queue == {} {
    } else {
      var m := Pick(queue);
      MessagesComeBack(queue - {m});
      assert MessageNumbers(queue)[8..] == MessageNumbers(queue - {m});
      assert {m} + (queue - {m}) == queue;
    }
  }

  // ---- the packing ----

  /** The accounts, after their count of numbers, and the queue. */
  ghost function Numbers(c: Chains.Chain): seq<nat> {
    [|AccountNumbers(c.accounts)|] + (AccountNumbers(c.accounts) + MessageNumbers(c.queue))
  }

  ghost function PackState(c: Chains.Chain): F.ShardState { F.ShardState(0, |c.blocks|, Numbers(c)) }

  ghost function PackBlock(c: Chains.Chain): F.Block { F.Block(0, |c.blocks|, 0, c.endLt, 0) }

  function AccountsOf(s: F.ShardState): Accounts {
    if s.body == [] || s.body[0] > |s.body| - 1 then map[] else ToAccounts(s.body[1..s.body[0] + 1])
  }

  function QueueOf(s: F.ShardState): set<Message> {
    if s.body == [] || s.body[0] > |s.body| - 1 then {} else ToMessages(s.body[s.body[0] + 1..])
  }

  ghost function RowOfNumbers(): Packing { Packing(PackState, PackBlock, AccountsOf, QueueOf) }

  lemma Slices(a: seq<nat>, q: seq<nat>)
    ensures var body := [|a|] + (a + q); body[1..|a| + 1] == a && body[|a| + 1..] == q
  {
  }

  lemma ComesBack(c: Chains.Chain)
    ensures AccountsOf(PackState(c)) == c.accounts && QueueOf(PackState(c)) == c.queue
  {
    hide AccountNumbers, MessageNumbers, ToAccounts, ToMessages;
    AccountsComeBack(c.accounts);
    MessagesComeBack(c.queue);
    Slices(AccountNumbers(c.accounts), MessageNumbers(c.queue));
  }

  lemma RowOfNumbersIsLawful()
    ensures LawfulPacking(RowOfNumbers())
  {
    hide AccountsOf, QueueOf, PackState;
    forall c: Chains.Chain ensures Unpacks(RowOfNumbers(), c) {
      ComesBack(c);
    }
  }
}
