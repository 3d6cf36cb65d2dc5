/** The loan ledger (Handlers/IpotekaHandler.cs): token-gated authorisation of
    chats and users, the singleton credit record, the append-only payment
    history, and the broadcast that drops chats a send fails for. */
module Ipoteka {
  import opened Text
  import opened Keys
  import opened Models
  import opened Store
  import opened Outbox

  // ---------------------------------------------------------------------------
  // The ledger, as values

  function Amounts(h: seq<PaymentRecord>): (a: seq<real>)
    ensures |a| == |h| && forall i :: 0 <= i < |h| ==> a[i] == h[i].Amount
  {
    seq(|h|, i requires 0 <= i < |h| => h[i].Amount)
  }

  /** Each record's NewBalance is the initial amount less the payments up to
      and including it. */
  ghost predicate RecordsBalanced(initial: real, h: seq<PaymentRecord>)
    decreases |h|
  {
    h == [] || (RecordsBalanced(initial, h[..|h| - 1]) && h[|h| - 1].NewBalance == initial - Sum(Amounts(h)))
  }

  /** The running-balance invariant: the balance is the initial amount less
      every payment, and every record carries the balance after it. */
  ghost predicate RunningBalance(c: CreditData, h: seq<PaymentRecord>)
  {
    c.CurrentAmount == c.InitialAmount - Sum(Amounts(h)) && RecordsBalanced(c.InitialAmount, h)
  }

  /** RecordsBalanced, record by record. */
  lemma {:induction false} RecordsBalancedAt(initial: real, h: seq<PaymentRecord>, i: int)
    requires RecordsBalanced(initial, h) && 0 <= i < |h|
    ensures h[i].NewBalance == initial - Sum(Amounts(h[..i + 1]))
  {
    if i == |h| - 1 {
      assert h[..i + 1] == h;
    } else {
      var init := h[..|h| - 1];
      RecordsBalancedAt(initial, init, i);
      assert init[..i + 1] == h[..i + 1];
      assert init[i] == h[i];
    }
  }

  /** The credit record `/set amount` writes. */
  function FreshCredit(amount: real, at: DateTime): (r: CreditData)
  {
    CreditData(amount, amount, at)
  }

  /** The credit record after a payment: the balance drops by the payment,
      with no floor at zero. */
  function Paid(c: CreditData, payment: real, at: DateTime): (r: CreditData)
  {
    c.(CurrentAmount := c.CurrentAmount - payment, LastUpdated := at)
  }

  /** The history record a payment appends. */
  function Receipt(c: CreditData, userId: Long, payment: real, at: DateTime): (r: PaymentRecord)
  {
    PaymentRecord(userId, payment, at, c.CurrentAmount - payment)
  }

  /** `/set` starts a ledger that satisfies the invariant. */
  lemma FreshCreditBalanced(amount: real, at: DateTime)
    ensures RunningBalance(FreshCredit(amount, at), [])
    ensures FreshCredit(amount, at).InitialAmount == FreshCredit(amount, at).CurrentAmount == amount
  {
  }

  /** A payment keeps the running-balance invariant. */
  lemma {:induction false} PaymentKeepsBalance(c: CreditData, h: seq<PaymentRecord>, userId: Long,
                                                payment: real, updatedAt: DateTime, paidAt: DateTime)
    requires RunningBalance(c, h)
    ensures RunningBalance(Paid(c, payment, updatedAt), h + [Receipt(c, userId, payment, paidAt)])
  {
    var h' := h + [Receipt(c, userId, payment, paidAt)];
    assert h'[..|h'| - 1] == h;
    assert Amounts(h')[..|h|] == Amounts(h);
  }

  /** One `/pay` as the ledger sees it. */
  datatype PayCommand = PayCommand(userId: Long, payment: real, updatedAt: DateTime, paidAt: DateTime)

  function PaidAmounts(ps: seq<PayCommand>): (a: seq<real>)
    ensures |a| == |ps| && forall i :: 0 <= i < |ps| ==> a[i] == ps[i].payment
  {
    seq(|ps|, i requires 0 <= i < |ps| => ps[i].payment)
  }

  datatype Ledger = Ledger(credit: CreditData, history: seq<PaymentRecord>)

  /** The ledger after `/set amount` and then the payments `ps`, in order. */
  function Replay(amount: real, setAt: DateTime, ps: seq<PayCommand>): (r: Ledger)
  {
    if ps == [] then Ledger(FreshCredit(amount, setAt), [])
    else
      var before := Replay(amount, setAt, ps[..|ps| - 1]);
      var p := ps[|ps| - 1];
      Ledger(Paid(before.credit, p.payment, p.updatedAt),
             before.history + [Receipt(before.credit, p.userId, p.payment, p.paidAt)])
  }

  lemma {:induction false} ReplayBalanced(amount: real, setAt: DateTime, ps: seq<PayCommand>)
    ensures var l := Replay(amount, setAt, ps);
      RunningBalance(l.credit, l.history) && l.credit.InitialAmount == amount && Amounts(l.history) == PaidAmounts(ps)
  {
    if ps != [] {
      var init := ps[..|ps| - 1];
      ReplayBalanced(amount, setAt, init);
      var before := Replay(amount, setAt, init);
      var p := ps[|ps| - 1];
      PaymentKeepsBalance(before.credit, before.history, p.userId, p.payment, p.updatedAt, p.paidAt);
      assert PaidAmounts(ps)[..|init|] == PaidAmounts(init);
    }
  }

  /** After `/set a` and payments p1..pn the balance is a - (p1 + ... + pn),
      the history holds n records in payment order, and record i carries
      p_i and the balance a - (p1 + ... + pi). */
  lemma ReplayStatement(amount: real, setAt: DateTime, ps: seq<PayCommand>)
    ensures var l := Replay(amount, setAt, ps);
      && l.credit.CurrentAmount == amount - Sum(PaidAmounts(ps))
      && |l.history| == |ps|
      && forall i :: 0 <= i < |ps| ==>
           && l.history[i].Amount == ps[i].payment
           && l.history[i].NewBalance == amount - Sum(PaidAmounts(ps[..i + 1]))
  {
    ReplayBalanced(amount, setAt, ps);
    var l := Replay(amount, setAt, ps);
    forall i | 0 <= i < |ps| ensures l.history[i].NewBalance == amount - Sum(PaidAmounts(ps[..i + 1])) {
      RecordsBalancedAt(amount, l.history, i);
      assert Amounts(l.history[..i + 1]) == Amounts(l.history)[..i + 1];
      assert PaidAmounts(ps[..i + 1]) == PaidAmounts(ps)[..i + 1];
    }
  }

  // ---------------------------------------------------------------------------
  // Effects on the store

  /** The `auth:chats` members a broadcast removes: those that parse as an id
      whose send throws. */
  function FailedChats(members: set<string>, fails: int -> bool): (r: set<string>)
  {
    set x | x in members && ParseLong(x).Some? && fails(ParseLong(x).value)
  }

  /** The store after a broadcast. */
  function Pruned(m: Data, fails: int -> bool): (r: Data)
  {
    WithoutMembers(m, AuthChats, FailedChats(SetIn(m, AuthChats), fails))
  }

  /** The store after a successful `/set`. */
  function SetEffect(m: Data, amount: real, at: DateTime, fails: int -> bool): (r: Data)
  {
    Pruned(m[Credit := Str(CreditJson(FreshCredit(amount, at)))] - {History}, fails)
  }

  /** The store after a successful `/pay`, before the broadcast. */
  function PayWrites(m: Data, c: CreditData, userId: Long, payment: real, updatedAt: DateTime, paidAt: DateTime): (r: Data)
  {
    var credited := m[Credit := Str(CreditJson(Paid(c, payment, updatedAt)))];
    credited[History := Value.Payments(PaymentsIn(credited, History) + [Receipt(c, userId, payment, paidAt)])]
  }

  /** What `/status` reports to a chat. */
  function StatusReply(m: Data, chatId: Long): (r: Reply)
  {
    if Dec(chatId) !in SetIn(m, AuthChats) then ChatNotAuthorized
    else match CreditIn(m)
      case None => CreditNotSet
      case Some(c) => Balance(c.CurrentAmount)
  }

  /** The lines `/history` lists: every record, oldest first. */
  function HistoryLines(h: seq<PaymentRecord>): (lines: seq<HistoryLine>)
    ensures |lines| == |h|
    ensures forall i :: 0 <= i < |h| ==> lines[i] == HistoryLine(h[i].Date, h[i].Amount, h[i].NewBalance)
  {
    seq(|h|, i requires 0 <= i < |h| => HistoryLine(h[i].Date, h[i].Amount, h[i].NewBalance))
  }

  /** What `/history` reports to a chat. */
  function HistoryReply(m: Data, chatId: Long): (r: Reply)
  {
    if Dec(chatId) !in SetIn(m, AuthChats) then ChatNotAuthorized
    else if PaymentsIn(m, History) == [] then HistoryEmpty
    else HistoryListing(HistoryLines(PaymentsIn(m, History)))
  }

  /** A broadcast removes exactly the members that parse and whose send
      fails, and leaves every other key alone. */
  lemma PrunedRemovesFailed(m: Data, fails: int -> bool, x: string)
    ensures x in SetIn(Pruned(m, fails), AuthChats) <==>
      x in SetIn(m, AuthChats) && !(ParseLong(x).Some? && fails(ParseLong(x).value))
    ensures AgreeExcept(Pruned(m, fails), m, {AuthChats})
  {
  }

  /** The effect of an accepted `/pay p` on a store `m0` holding credit `c`,
      from store `m1` and log `log1` afterwards: the reduced credit is written
      and the payment appended; the payer is told the new balance; and only
      if that reply gets through is every authorised chat, each once, sent the
      broadcast, the failed ones being removed from `auth:chats`. */
  ghost predicate PayAccepted(m0: Data, m1: Data, log0: seq<Call>, log1: seq<Call>, notified: seq<string>,
                                  c: CreditData, userId: Long, p: real, updatedAt: DateTime, paidAt: DateTime,
                                  fails: int -> bool)
  {
    var written := PayWrites(m0, c, userId, p, updatedAt, paidAt);
    var balance := c.CurrentAmount - p;
    && m1 == (if fails(userId) then written else Pruned(written, fails))
    && (fails(userId) ==> notified == [])
    && (!fails(userId) ==> forall x :: x in notified <==> x in SetIn(m0, AuthChats))
    && (!fails(userId) ==> |notified| == |SetIn(m0, AuthChats)|)
    && log1 == log0 + [Message(userId, PaymentAccepted(p, balance), !fails(userId))]
                    + Broadcast(notified, PaymentBroadcast(p, balance), fails)
  }

  /** What the payment writes and the broadcast after them leave in the store. */
  lemma PayOutcome(m: Data, c: CreditData, userId: Long, p: real, updatedAt: DateTime, paidAt: DateTime,
                   fails: int -> bool)
    requires CreditIn(m) == Some(c)
    ensures var written := PayWrites(m, c, userId, p, updatedAt, paidAt);
      && SetIn(written, AuthChats) == SetIn(m, AuthChats)
      && CreditIn(written) == CreditIn(Pruned(written, fails)) == Some(Paid(c, p, updatedAt))
      && PaymentsIn(written, History) == PaymentsIn(Pruned(written, fails), History)
         == PaymentsIn(m, History) + [PaymentRecord(userId, p, paidAt, c.CurrentAmount - p)]
      && (RunningBalance(c, PaymentsIn(m, History)) ==>
            RunningBalance(Paid(c, p, updatedAt), PaymentsIn(written, History)))
  {
    if RunningBalance(c, PaymentsIn(m, History)) {
      PaymentKeepsBalance(c, PaymentsIn(m, History), userId, p, updatedAt, paidAt);
    }
  }

  /** A broadcast keeps the schema. */
  lemma PrunedKeepsTyped(m: Data, fails: int -> bool)
    requires WellTyped(m)
    ensures AuthChats !in m || IsSet(m[AuthChats])
    ensures WellTyped(Pruned(m, fails))
  {
    SetUpdateKeepsTyped(m, AuthChats, "", FailedChats(SetIn(m, AuthChats), fails));
  }

  /** `/set a` and then `/status` in an authorised chat that the broadcast
      reached report the balance a. */
  lemma {:induction false} SetThenStatus(m: Data, amount: real, at: DateTime, fails: int -> bool, chatId: Long)
    requires Dec(chatId) in SetIn(m, AuthChats) && !fails(chatId)
    ensures StatusReply(SetEffect(m, amount, at, fails), chatId) == Balance(amount)
  {
    var m' := m[Credit := Str(CreditJson(FreshCredit(amount, at)))] - {History};
    assert SetIn(m', AuthChats) == SetIn(m, AuthChats);
    assert CreditIn(m') == Some(FreshCredit(amount, at));
    ParseDec(chatId);
    ReachedChatStays(m', fails, Dec(chatId), chatId);
  }

  /** A member that parses as a chat the broadcast reaches stays authorised. */
  lemma ReachedChatStays(m: Data, fails: int -> bool, x: string, id: Long)
    requires x in SetIn(m, AuthChats) && ParseLong(x) == Some(id) && !fails(id)
    ensures x in SetIn(Pruned(m, fails), AuthChats)
    ensures CreditIn(Pruned(m, fails)) == CreditIn(m)
  {
    PrunedRemovesFailed(m, fails, x);
  }

  /** `/set` clears the history: `/history` right after reports it empty
      wherever the chat is still authorised. */
  lemma {:induction false} SetThenHistory(m: Data, amount: real, at: DateTime, fails: int -> bool, chatId: Long)
    requires Dec(chatId) in SetIn(SetEffect(m, amount, at, fails), AuthChats)
    ensures HistoryReply(SetEffect(m, amount, at, fails), chatId) == HistoryEmpty
  {
    var m' := m[Credit := Str(CreditJson(FreshCredit(amount, at)))] - {History};
    assert History !in m';
  }

  /** The history rendering, as ShowHistory builds it line by line. */
  method RenderHistory(h: seq<PaymentRecord>) returns (lines: seq<HistoryLine>)
    ensures lines == HistoryLines(h)
  {
    lines := [];
    for i := 0 to |h|
      invariant lines == HistoryLines(h[..i])
    {
      assert h[..i + 1][..i] == h[..i];
      lines := lines + [HistoryLine(h[i].Date, h[i].Amount, h[i].NewBalance)];
    }
    assert h[..|h|] == h;
  }

  // ---------------------------------------------------------------------------
  // The handler

  class IpotekaHandler {
    const bot: Bot
    const readTokens: seq<string>
    const writeTokens: seq<string>
    /** `decimal.TryParse(s, NumberStyles.Currency, CultureInfo.InvariantCulture, out _)`. */
    const parseAmount: string -> Option<real>

    constructor (bot: Bot, readTokens: seq<string>, writeTokens: seq<string>, parseAmount: string -> Option<real>)
      ensures this.bot == bot && this.readTokens == readTokens && this.writeTokens == writeTokens
      ensures this.parseAmount == parseAmount
    {
      this.bot, this.readTokens, this.writeTokens, this.parseAmount := bot, readTokens, writeTokens, parseAmount;
    }

    /** The amount after the command: the untrimmed second word, parsed. */
    function Amount(text: string): (r: Option<real>)
    {
      match Word(text, 1)
      case Some(w) => parseAmount(w)
      case None => None
    }

    /** `/authorize token`: a read or write token admits the chat to `auth:chats`. */
    method HandleAuthorize(chatId: Long, text: string, redis: Redis)
      requires redis.Valid()
      modifies redis, bot
      ensures redis.Valid()
      ensures var granted := Token(text).Some? && (Token(text).value in readTokens || Token(text).value in writeTokens);
        && redis.data == (if granted then WithMember(old(redis.data), AuthChats, Dec(chatId)) else old(redis.data))
        && bot.log == old(bot.log) + [Message(chatId,
             if Token(text).None? then AuthorizeUsage else if granted then ChatAuthorized else WrongToken,
             !bot.SendFails(chatId))]
    {
      var token := Token(text);
      if token.None? {
        var _ := bot.Send(chatId, AuthorizeUsage);
        return;
      }
      if token.value in readTokens || token.value in writeTokens {
        SetUpdateKeepsTyped(redis.data, AuthChats, Dec(chatId), {});
        redis.SetAdd(AuthChats, Dec(chatId));
        var _ := bot.Send(chatId, ChatAuthorized);
      } else {
        var _ := bot.Send(chatId, WrongToken);
      }
    }

    /** `/user_authorize token`: only a write token admits the user to
        `auth:users`; without a token nothing happens at all. */
    method HandleUserAuthorize(userId: Long, text: string, redis: Redis)
      requires redis.Valid()
      modifies redis, bot
      ensures redis.Valid()
      ensures var granted := Token(text).Some? && Token(text).value in writeTokens;
        && redis.data == (if granted then WithMember(old(redis.data), AuthUsers, Dec(userId)) else old(redis.data))
        && bot.log == old(bot.log) + (if Token(text).None? then []
             else [Message(userId, if granted then UserAuthorized else WrongToken, !bot.SendFails(userId))])
    {
      var token := Token(text);
      if token.None? {
        return;
      }
      if token.value in writeTokens {
        SetUpdateKeepsTyped(redis.data, AuthUsers, Dec(userId), {});
        redis.SetAdd(AuthUsers, Dec(userId));
        var _ := bot.Send(userId, UserAuthorized);
      } else {
        var _ := bot.Send(userId, WrongToken);
      }
    }

    /** `/set amount`: a write-authorised user replaces the credit with a fresh
        one, clears the history, and every authorised chat is told. */
    method HandleSet(chatId: Long, userId: Long, text: string, redis: Redis, now: DateTime)
      returns (notified: seq<string>)
      requires redis.Valid()
      modifies redis, bot
      ensures redis.Valid()
      ensures Dec(userId) !in old(SetIn(redis.data, AuthUsers)) ==>
        redis.data == old(redis.data) && notified == []
        && bot.log == old(bot.log) + [Message(chatId, NoSetRights, !bot.SendFails(chatId))]
      ensures Dec(userId) in old(SetIn(redis.data, AuthUsers)) && Amount(text).None? ==>
        redis.data == old(redis.data) && notified == []
        && bot.log == old(bot.log) + [Message(chatId, SetUsage, !bot.SendFails(chatId))]
      ensures Dec(userId) in old(SetIn(redis.data, AuthUsers)) && Amount(text).Some? ==>
        && redis.data == SetEffect(old(redis.data), Amount(text).value, now, bot.SendFails)
        && CreditIn(redis.data) == Some(FreshCredit(Amount(text).value, now))
        && PaymentsIn(redis.data, History) == []
        && |notified| == |old(SetIn(redis.data, AuthChats))|
        && (forall x :: x in notified <==> x in old(SetIn(redis.data, AuthChats)))
        && bot.log == old(bot.log) + Broadcast(notified, NewCredit(Amount(text).value), bot.SendFails)
    {
      notified := [];
      if Dec(userId) !in SetIn(redis.data, AuthUsers) {
        var _ := bot.Send(chatId, NoSetRights);
        return;
      }
      var amount := Amount(text);
      if amount.None? {
        var _ := bot.Send(chatId, SetUsage);
        return;
      }
      WriteKeepsTyped(redis.data, Credit, Str(CreditJson(FreshCredit(amount.value, now))));
      redis.StringSet(Credit, CreditJson(FreshCredit(amount.value, now)));
      DeleteKeepsTyped(redis.data, History);
      redis.KeyDelete(History);
      PrunedKeepsTyped(redis.data, bot.SendFails);
      notified := NotifyAllChats(NewCredit(amount.value), redis);
    }

    /** `/pay amount`: a write-authorised user lowers the stored balance and
        appends a record of the payment; the payer is told, then every
        authorised chat. */
    method HandlePay(userId: Long, text: string, redis: Redis, updatedAt: DateTime, paidAt: DateTime)
      returns (notified: seq<string>)
      requires redis.Valid()
      modifies redis, bot
      ensures redis.Valid()
      ensures Dec(userId) !in old(SetIn(redis.data, AuthUsers)) ==>
        redis.data == old(redis.data) && notified == []
        && bot.log == old(bot.log) + [Message(userId, NoPayRights, !bot.SendFails(userId))]
      ensures Dec(userId) in old(SetIn(redis.data, AuthUsers)) && Amount(text).None? ==>
        redis.data == old(redis.data) && notified == []
        && bot.log == old(bot.log) + [Message(userId, PayUsage, !bot.SendFails(userId))]
      ensures Dec(userId) in old(SetIn(redis.data, AuthUsers)) && Amount(text).Some?
              && old(CreditIn(redis.data)).None? ==>
        redis.data == old(redis.data) && notified == []
        && bot.log == old(bot.log) + [Message(userId, CreditFirst, !bot.SendFails(userId))]
      ensures Dec(userId) in old(SetIn(redis.data, AuthUsers)) && Amount(text).Some?
              && old(CreditIn(redis.data)).Some? ==>
        PayAccepted(old(redis.data), redis.data, old(bot.log), bot.log, notified,
                        old(CreditIn(redis.data)).value, userId, Amount(text).value, updatedAt, paidAt, bot.SendFails)
      ensures old(CreditIn(redis.data)).Some?
              && old(RunningBalance(CreditIn(redis.data).value, PaymentsIn(redis.data, History))) ==>
        CreditIn(redis.data).Some? && RunningBalance(CreditIn(redis.data).value, PaymentsIn(redis.data, History))
    {
      notified := [];
      ghost var m0 := redis.data;
      if Dec(userId) !in SetIn(redis.data, AuthUsers) {
        var _ := bot.Send(userId, NoPayRights);
        return;
      }
      var payment := Amount(text);
      if payment.None? {
        var _ := bot.Send(userId, PayUsage);
        return;
      }
      var stored := CreditIn(redis.data);
      if stored.None? {
        var _ := bot.Send(userId, CreditFirst);
        return;
      }
      assert redis.data == m0;
      PayOutcome(redis.data, stored.value, userId, payment.value, updatedAt, paidAt, bot.SendFails);
      notified := AcceptPayment(userId, stored.value, payment.value, redis, updatedAt, paidAt);
    }

    /** The accepted half of `/pay`: both writes, the reply to the payer and,
        unless that reply throws, the broadcast. */
    method AcceptPayment(userId: Long, c: CreditData, p: real, redis: Redis, updatedAt: DateTime, paidAt: DateTime)
      returns (notified: seq<string>)
      requires redis.Valid() && CreditIn(redis.data) == Some(c)
      modifies redis, bot
      ensures redis.Valid()
      ensures PayAccepted(old(redis.data), redis.data, old(bot.log), bot.log, notified,
                              c, userId, p, updatedAt, paidAt, bot.SendFails)
    {
      notified := [];
      var credit := Paid(c, p, updatedAt);
      WriteKeepsTyped(redis.data, Credit, Str(CreditJson(credit)));
      redis.StringSet(Credit, CreditJson(credit));
      var record := Receipt(c, userId, p, paidAt);
      WriteKeepsTyped(redis.data, History, Value.Payments(PaymentsIn(redis.data, History) + [record]));
      redis.ListRightPush(History, record);
      var ok := bot.Send(userId, PaymentAccepted(p, credit.CurrentAmount));
      if !ok {
        return;
      }
      PrunedKeepsTyped(redis.data, bot.SendFails);
      notified := NotifyAllChats(PaymentBroadcast(p, credit.CurrentAmount), redis);
    }

    /** `/status`: an authorised chat is told the current balance. */
    method ShowStatus(chatId: Long, redis: Redis)
      modifies bot
      ensures bot.log == old(bot.log) + [Message(chatId, StatusReply(redis.data, chatId), !bot.SendFails(chatId))]
    {
      if Dec(chatId) !in SetIn(redis.data, AuthChats) {
        var _ := bot.Send(chatId, ChatNotAuthorized);
        return;
      }
      var credit := CreditIn(redis.data);
      if credit.None? {
        var _ := bot.Send(chatId, CreditNotSet);
        return;
      }
      var _ := bot.Send(chatId, Balance(credit.value.CurrentAmount));
    }

    /** `/history`: an authorised chat is sent every payment, oldest first. */
    method ShowHistory(chatId: Long, redis: Redis)
      modifies bot
      ensures bot.log == old(bot.log) + [Message(chatId, HistoryReply(redis.data, chatId), !bot.SendFails(chatId))]
    {
      if Dec(chatId) !in SetIn(redis.data, AuthChats) {
        var _ := bot.Send(chatId, ChatNotAuthorized);
        return;
      }
      var history := PaymentsIn(redis.data, History);
      if |history| == 0 {
        var _ := bot.Send(chatId, HistoryEmpty);
        return;
      }
      var lines := RenderHistory(history);
      var _ := bot.Send(chatId, HistoryListing(lines));
    }

    /** Sends `reply` to every member of `auth:chats` that parses as a chat id,
        in the order the store lists them, and removes each member whose send
        throws. */
    method NotifyAllChats(reply: Reply, redis: Redis) returns (listed: seq<string>)
      requires AuthChats !in redis.data || IsSet(redis.data[AuthChats])
      modifies redis, bot
      ensures |listed| == |old(SetIn(redis.data, AuthChats))|
      ensures forall x :: x in listed <==> x in old(SetIn(redis.data, AuthChats))
      ensures redis.data == Pruned(old(redis.data), bot.SendFails)
      ensures bot.log == old(bot.log) + Broadcast(listed, reply, bot.SendFails)
    {
      listed := redis.SetMembers(AuthChats);
      ghost var m0 := redis.data;
      ghost var log0 := bot.log;
      var k := AuthChats;
      WithoutNothing(m0, k);
      for i := 0 to |listed|
        invariant redis.data == WithoutMembers(m0, k, FailedOf(listed[..i], bot.SendFails))
        invariant bot.log == log0 + Broadcast(listed[..i], reply, bot.SendFails)
      {
        ghost var (d, l) := (redis.data, bot.log);
        NotifyMember(listed[i], reply, redis);
        NotifyStep(m0, log0, listed, i, reply, bot.SendFails, d, l, redis.data, bot.log);
      }
      FailedOfListing(listed, SetIn(m0, k), bot.SendFails);
    }

    /** One turn of the broadcast: send to the chat `member` names, if it
        parses, and drop the member when the send throws. */
    method NotifyMember(member: string, reply: Reply, redis: Redis)
      modifies redis, bot
      ensures redis.data == (if ParseLong(member).Some? && bot.SendFails(ParseLong(member).value)
                             then WithoutMembers(old(redis.data), AuthChats, {member}) else old(redis.data))
      ensures bot.log == old(bot.log) + SendToId(ParseLong(member), reply, bot.SendFails)
    {
      var id := ParseLong(member);
      if id.Some? {
        var ok := bot.Send(id.value, reply);
        if !ok {
          redis.SetRemove(AuthChats, member);
        }
      }
    }
  }

  /** One turn of the broadcast keeps the loop's account of store and log. */
  lemma NotifyStep(m0: Data, log0: seq<Call>, listed: seq<string>, i: int, reply: Reply, fails: int -> bool,
                   d: Data, l: seq<Call>, d': Data, l': seq<Call>)
    requires 0 <= i < |listed|
    requires d == WithoutMembers(m0, AuthChats, FailedOf(listed[..i], fails))
    requires l == log0 + Broadcast(listed[..i], reply, fails)
    requires d' == (if ParseLong(listed[i]).Some? && fails(ParseLong(listed[i]).value)
                    then WithoutMembers(d, AuthChats, {listed[i]}) else d)
    requires l' == l + SendToId(ParseLong(listed[i]), reply, fails)
    ensures d' == WithoutMembers(m0, AuthChats, FailedOf(listed[..i + 1], fails))
    ensures l' == log0 + Broadcast(listed[..i + 1], reply, fails)
  {
    FailedOfStep(listed, i, fails);
    BroadcastStep(listed, i, reply, fails);
    LogAppend(log0, Broadcast(listed[..i], reply, fails), SendToId(ParseLong(listed[i]), reply, fails));
    WithoutMembersStep(m0, AuthChats, FailedOf(listed[..i], fails), listed[i]);
  }

  /** The members of a listing a broadcast removes, in listing order. */
  function FailedOf(listed: seq<string>, fails: int -> bool): (r: set<string>)
  {
    if listed == [] then {}
    else
      var x := listed[|listed| - 1];
      FailedOf(listed[..|listed| - 1], fails) + (if ParseLong(x).Some? && fails(ParseLong(x).value) then {x} else {})
  }

  lemma FailedOfStep(listed: seq<string>, i: int, fails: int -> bool)
    requires 0 <= i < |listed|
    ensures var x := listed[i];
      FailedOf(listed[..i + 1], fails) ==
        if ParseLong(x).Some? && fails(ParseLong(x).value) then FailedOf(listed[..i], fails) + {x}
        else FailedOf(listed[..i], fails)
  {
    assert listed[..i + 1][..i] == listed[..i];
  }

  /** Over a whole listing, the removed members are the failing ones. */
  lemma {:induction false} FailedOfMembers(listed: seq<string>, fails: int -> bool, x: string)
    ensures x in FailedOf(listed, fails) <==> x in listed && ParseLong(x).Some? && fails(ParseLong(x).value)
  {
    if listed != [] {
      var init := listed[..|listed| - 1];
      FailedOfMembers(init, fails, x);
      assert listed == init + [listed[|listed| - 1]];
    }
  }

  lemma FailedOfListing(listed: seq<string>, s: set<string>, fails: int -> bool)
    requires forall x :: x in listed <==> x in s
    ensures FailedOf(listed, fails) == FailedChats(s, fails)
    ensures listed[..|listed|] == listed
  {
    forall x ensures x in FailedOf(listed, fails) <==> x in FailedChats(s, fails) {
      FailedOfMembers(listed, fails, x);
    }
  }
}
