/** The messaging client as the handlers see it: every SendMessage and
    AnswerCallbackQuery call is appended to a log, and whether a call throws is
    an abstract property of its target. Message texts are represented by what
    they report, not by their wording. */
module Outbox {
  import opened Text
  import opened Models

  /** One line of the /history listing: date, payment, balance after it. */
  datatype HistoryLine = HistoryLine(date: DateTime, amount: real, newBalance: real)

  /** One line of the monthly reminder's payment list: date and payment. */
  datatype PaymentLine = PaymentLine(date: DateTime, amount: real)

  /** The payment part of the monthly reminder. */
  datatype ReminderHistory = NoPayments | LastPayments(lines: seq<PaymentLine>)

  datatype Reply =
    // loan ledger
    | AuthorizeUsage | ChatAuthorized | WrongToken | UserAuthorized
    | NoSetRights | SetUsage | NoPayRights | PayUsage | CreditFirst
    | NewCredit(amount: real)
    | PaymentAccepted(payment: real, balance: real)
    | PaymentBroadcast(payment: real, balance: real)
    | ChatNotAuthorized | CreditNotSet | Balance(current: real)
    | HistoryEmpty | HistoryListing(lines: seq<HistoryLine>)
    // finance tracker
    | FinAuthUsage | FinAccessGranted | FinWrongToken | FinNoAccess
    | CategoryUsage | CategoryAdded(name: string)
    | NoCategoriesYet | CategoryListing(names: seq<string>)
    | BudgetUsage | BudgetSet(month: string, limit: real)
    | ExpenseNoAccess | AddCategoriesFirst | ExpenseButtonsSoon
    | NoExpenses(month: string) | ExpenseReport(month: string, groups: seq<CategorySum>)
    // router
    | Help | Woof | UnknownCommand | EnterExpenseAmount | ExpenseCancelled
    // monthly reminder
    | MonthlyUpdate(balance: real, history: ReminderHistory)

  datatype Call =
    | Message(chatId: int, reply: Reply, delivered: bool)
    | Answer(queryId: string, delivered: bool)

  class Bot {
    /** SendMessage to this chat throws. */
    const SendFails: int -> bool
    /** AnswerCallbackQuery with this query id throws. */
    const AnswerFails: string -> bool
    var log: seq<Call>

    constructor (sendFails: int -> bool, answerFails: string -> bool)
      ensures SendFails == sendFails && AnswerFails == answerFails && log == []
    {
      SendFails, AnswerFails := sendFails, answerFails;
      log := [];
    }

    /** SendMessage; `ok` is false where the real call throws. */
    method Send(chatId: int, reply: Reply) returns (ok: bool)
      modifies this
      ensures ok == !SendFails(chatId)
      ensures log == old(log) + [Message(chatId, reply, ok)]
    {
      ok := !SendFails(chatId);
      log := log + [Message(chatId, reply, ok)];
    }

    /** AnswerCallbackQuery; `ok` is false where the real call throws. */
    method AnswerCallback(queryId: string) returns (ok: bool)
      modifies this
      ensures ok == !AnswerFails(queryId)
      ensures log == old(log) + [Answer(queryId, ok)]
    {
      ok := !AnswerFails(queryId);
      log := log + [Answer(queryId, ok)];
    }
  }

  /** The sends of one broadcast: one per member that parses as a chat id, in
      listing order, each delivered unless sending to that chat throws. */
  function Broadcast(members: seq<string>, reply: Reply, fails: int -> bool): (calls: seq<Call>)
    ensures |calls| <= |members|
  {
    if members == [] then []
    else
      SendTo(members[0], reply, fails) + Broadcast(members[1..], reply, fails)
  }

  /** The sends a single member contributes to a broadcast. */
  function SendTo(member: string, reply: Reply, fails: int -> bool): (r: seq<Call>)
  {
    SendToId(ParseLong(member), reply, fails)
  }

  function SendToId(id: Option<Long>, reply: Reply, fails: int -> bool): (r: seq<Call>)
  {
    if id.Some? then [Message(id.value, reply, !fails(id.value))] else []
  }

  /** A broadcast over a longer listing extends the broadcast over its prefix. */
  lemma {:induction false} BroadcastAppend(members: seq<string>, x: string, reply: Reply, fails: int -> bool)
    ensures Broadcast(members + [x], reply, fails) == Broadcast(members, reply, fails) + SendTo(x, reply, fails)
  {
    if members == [] {
      assert [x][1..] == [];
    } else {
      assert (members + [x])[1..] == members[1..] + [x];
      BroadcastAppend(members[1..], x, reply, fails);
    }
  }

  /** A broadcast over one more member of a listing extends the broadcast
      over the shorter prefix by that member's send. */
  lemma BroadcastStep(listed: seq<string>, i: int, reply: Reply, fails: int -> bool)
    requires 0 <= i < |listed|
    ensures Broadcast(listed[..i + 1], reply, fails)
         == Broadcast(listed[..i], reply, fails) + SendToId(ParseLong(listed[i]), reply, fails)
  {
    assert listed[..i + 1] == listed[..i] + [listed[i]];
    BroadcastAppend(listed[..i], listed[i], reply, fails);
  }

  /** Appending one call after another keeps the log's grouping irrelevant. */
  lemma LogAppend(log: seq<Call>, sent: seq<Call>, next: seq<Call>)
    ensures log + (sent + next) == (log + sent) + next
  {
  }

  /** Every member that parses as a chat id is sent the message, with the
      outcome its chat determines; no other chat is sent anything. */
  lemma {:induction false} BroadcastReaches(members: seq<string>, reply: Reply, fails: int -> bool, id: int)
    ensures Message(id, reply, !fails(id)) in Broadcast(members, reply, fails)
        <==> exists i :: 0 <= i < |members| && ParseLong(members[i]) == Some(id)
  {
    if members != [] {
      var tail := members[1..];
      BroadcastReaches(tail, reply, fails, id);
      var p0 := ParseLong(members[0]);
      var head := SendToId(p0, reply, fails);
      assert Message(id, reply, !fails(id)) in head <==> p0 == Some(id);
      assert Broadcast(members, reply, fails) == head + Broadcast(tail, reply, fails);
      if exists i :: 0 <= i < |tail| && ParseLong(tail[i]) == Some(id) {
        var i :| 0 <= i < |tail| && ParseLong(tail[i]) == Some(id);
        assert members[i + 1] == tail[i];
      }
      if exists i :: 0 <= i < |members| && ParseLong(members[i]) == Some(id) {
        var i :| 0 <= i < |members| && ParseLong(members[i]) == Some(id);
        if i > 0 { assert tail[i - 1] == members[i]; }
      }
    }
  }

}
