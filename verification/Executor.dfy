/** The transaction executor as seen by the block builder: a function with a contract. */
module Executor {
  import opened Common
  import opened Messages

  datatype Account = Account(balance: nat, lastTrTime: nat, data: nat)

  /** A dictionary entry: the account and the logical time of its last transaction. */
  datatype ShardAccount = ShardAccount(account: Account, lastTransLt: nat)

  datatype ProviderReply = Absent | Found(entry: ShardAccount) | ProviderFailed

  /** What one successful run produces. `account` is None when the account ceases to exist. */
  datatype TxResult = TxResult(
    lt: nat, maxLt: nat, account: Option<Account>, outs: seq<Message>, gasUsed: nat, fees: nat, copyleft: nat)

  datatype ExecResult = Success(tx: TxResult) | NoAccept | NoFunds | ComputeSkipped | Broken

  type ExecutorFn = (Option<Account>, AccountId, InMsg, nat) -> ExecResult

  function LastTime(a: Option<Account>): nat { if a.Some? then a.value.lastTrTime else 0 }
  function BalanceOf(a: Option<Account>): nat { if a.Some? then a.value.balance else 0 }
  function MsgLt(m: InMsg): nat { if m.Internal? then m.msg.createdLt else 0 }
  function MsgValue(m: InMsg): nat { if m.Internal? then m.msg.value else 0 }

  /** Value and forwarding fee that a message carries while it travels. */
  function Carried(m: Message): nat { m.value + m.fwdFee }

  function CarriedBy(ms: seq<Message>): nat {
    if ms == [] then 0 else CarriedBy(ms[..|ms| - 1]) + Carried(ms[|ms| - 1])
  }

  /** The earliest logical time the transaction may take. */
  function EarliestLt(a: Option<Account>, m: InMsg, lastLt: nat): nat {
    Max(LastTime(a), Max(lastLt, MsgLt(m) + 1))
  }

  ghost predicate LawfulTimes(a: Option<Account>, id: AccountId, m: InMsg, lastLt: nat, t: TxResult) {
    && EarliestLt(a, m, lastLt) <= t.lt <= t.maxLt
    && (forall o | o in t.outs :: o.src == id && t.lt < o.createdLt <= t.maxLt)
    && SourceOrdered(t.outs)
    && (t.account.Some? ==>
          && t.lt <= t.account.value.lastTrTime
          && forall o | o in t.outs :: o.createdLt < t.account.value.lastTrTime)
  }

  /** A run without gas emits at most one bounced message, and none when it runs a bounced message. */
  ghost predicate LawfulGas(m: InMsg, t: TxResult) {
    t.gasUsed == 0 ==>
      && |t.outs| <= 1
      && (forall o | o in t.outs :: o.bounced)
      && (m.Internal? && m.msg.bounced ==> t.outs == [])
  }

  ghost predicate LawfulValue(a: Option<Account>, m: InMsg, t: TxResult) {
    BalanceOf(a) + MsgValue(m) == BalanceOf(t.account) + CarriedBy(t.outs) + t.fees + t.copyleft
  }

  ghost predicate LawfulAt(a: Option<Account>, id: AccountId, m: InMsg, lastLt: nat, r: ExecResult) {
    match r
    case Success(t) => LawfulTimes(a, id, m, lastLt, t) && LawfulGas(m, t) && LawfulValue(a, m, t)
    case Broken => true
    case _ => m.External?
  }

  /** The contract of the executor. */
  ghost predicate Lawful(ex: ExecutorFn) {
    forall a, id, m, lastLt :: LawfulAt(a, id, m, lastLt, ex(a, id, m, lastLt))
  }
}
