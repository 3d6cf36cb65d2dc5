/** The update loop of Program.cs: a message is routed on its first word,
    lower-cased, to one of the handlers; any other text is an expense amount
    if it parses as a decimal. A callback query is routed on the prefix of its
    data. Members of the finance handler that are not part of this model are
    represented by the `Delegation` the router hands them. */
module Router {
  import opened Text
  import opened Keys
  import opened Models
  import opened Store
  import opened Outbox
  import opened Ipoteka
  import opened Finance

  // ---------------------------------------------------------------------------
  // Routing a message

  datatype Route =
    | Start | Authorize | UserAuthorize | SetCredit | Pay | Status | PaymentHistory
    | FinAuth | FinAddCategory | FinListCategories | FinSetBudget | FinAddExpense
    | FinAnalytics | FinExpenseHistory | Gav
    | ExpenseAmount | CategoryPlannedAmount | Unknown

  /** The `switch` of the update handler: command word and route. */
  const Commands: seq<(string, Route)> := [
    ("/start", Start), ("/authorize", Authorize), ("/user_authorize", UserAuthorize),
    ("/set", SetCredit), ("/pay", Pay), ("/status", Status), ("/history", PaymentHistory),
    ("/fin_auth", FinAuth), ("/fin_add_category", FinAddCategory),
    ("/fin_categories", FinListCategories), ("/fin_set_budget", FinSetBudget),
    ("/fin_add_expense", FinAddExpense), ("/fin_analytics", FinAnalytics),
    ("/fin_history", FinExpenseHistory), ("/gav", Gav)]

  /** The route of the first entry named `name`. */
  function Lookup(table: seq<(string, Route)>, name: string): (r: Option<Route>)
    ensures r.Some? ==> exists i :: 0 <= i < |table| && table[i] == (name, r.value)
    ensures r.None? ==> forall i :: 0 <= i < |table| ==> table[i].0 != name
  {
    if table == [] then None
    else if table[0].0 == name then Some(table[0].1)
    else
      var r := Lookup(table[1..], name);
      assert r.Some? ==> exists i :: 0 <= i < |table| && table[i] == (name, r.value) by {
        if r.Some? {
          var i :| 0 <= i < |table[1..]| && table[1..][i] == (name, r.value);
          assert table[i + 1] == (name, r.value);
        }
      }
      assert r.None? ==> forall i :: 1 <= i < |table| ==> table[i].0 != name by {
        if r.None? {
          forall i | 1 <= i < |table| ensures table[i].0 != name { assert table[i] == table[1..][i - 1]; }
        }
      }
      r
  }

  /** Command words are distinct, and so are the routes they lead to. */
  predicate DistinctEntries(table: seq<(string, Route)>)
  {
    forall i, j :: 0 <= i < j < |table| ==> table[i].0 != table[j].0 && table[i].1 != table[j].1
  }

  /** Entry `i` is the one a lookup of its own name finds. */
  lemma {:induction false} LookupFinds(table: seq<(string, Route)>, i: int)
    requires DistinctEntries(table) && 0 <= i < |table|
    ensures Lookup(table, table[i].0) == Some(table[i].1)
  {
    if i > 0 {
      assert table[0].0 != table[i].0;
      assert DistinctEntries(table[1..]) by {
        forall a, b | 0 <= a < b < |table[1..]|
          ensures table[1..][a].0 != table[1..][b].0 && table[1..][a].1 != table[1..][b].1
        {
          assert table[1..][a] == table[a + 1] && table[1..][b] == table[b + 1];
        }
      }
      LookupFinds(table[1..], i - 1);
      assert table[1..][i - 1] == table[i];
    }
  }

  /** Three characters tell the command words apart. */
  function Signature(w: string): (r: (int, char, char))
  {
    (|w|, if |w| > 1 then w[1] else ' ', if |w| > 5 then w[5] else ' ')
  }

  lemma CommandsDistinct()
    ensures DistinctEntries(Commands)
  {
    forall i, j | 0 <= i < j < |Commands| ensures Commands[i].0 != Commands[j].0 && Commands[i].1 != Commands[j].1 {
      assert Signature(Commands[i].0) != Signature(Commands[j].0);
    }
  }

  /** `text.Split(' ')[0].ToLower()`. */
  function CommandWord(text: string): (r: string)
  {
    ToLower(Split(text, ' ')[0])
  }

  /** `text.Replace(" ", "").Replace(",", ".")`, the form an amount is parsed in. */
  function Normalize(text: string): (r: string)
    ensures ' ' !in r && ',' !in r
  {
    ReplaceChar(RemoveChar(text, ' '), ',', '.')
  }

  /** Text that has neither a space nor a comma is already in parsed form. */
  lemma NormalizeFixed(text: string)
    requires ' ' !in text && ',' !in text
    ensures Normalize(text) == text
  {
    RemoveCharAbsent(text, ' ');
    ReplaceCharAbsent(text, ',', '.');
  }

  /** Normalizing twice is normalizing once. */
  lemma NormalizeIdempotent(text: string)
    ensures Normalize(Normalize(text)) == Normalize(text)
  {
    NormalizeFixed(Normalize(text));
  }

  /** A space is dropped wherever it stands: `"1 500"` reads as `"1500"`. */
  lemma NormalizeDropsSpace(a: string, b: string)
    ensures Normalize(a + " " + b) == Normalize(a) + Normalize(b)
  {
    RemoveCharAppend(a + " ", b, ' ');
    RemoveCharAppend(a, " ", ' ');
    RemoveCharSingle(' ', ' ');
    ReplaceCharAppend(RemoveChar(a, ' '), RemoveChar(b, ' '), ',', '.');
  }

  /** A comma becomes the decimal point: `"12,5"` reads as `"12.5"`. */
  lemma NormalizeCommaIsPoint(a: string, b: string)
    ensures Normalize(a + "," + b) == Normalize(a) + "." + Normalize(b)
  {
    RemoveCharAppend(a + ",", b, ' ');
    RemoveCharAppend(a, ",", ' ');
    RemoveCharSingle(',', ' ');
    ReplaceCharAppend(RemoveChar(a, ' ') + ",", RemoveChar(b, ' '), ',', '.');
    ReplaceCharAppend(RemoveChar(a, ' '), ",", ',', '.');
  }

  /** `IsCategoryPlannedAmountInput`: the user has a `temp_category:` key
      (a key scan outside this model, given as `tempKeysExist`) and the text
      parses as an amount. */
  predicate IsCategoryPlannedAmountInput(text: string, parse: string -> Option<real>, tempKeysExist: bool)
  {
    tempKeysExist && parse(Normalize(text)).Some?
  }

  /** The route of a message: first the command table, then the two numeric
      inputs, in the order they are tested. */
  function Dispatch(text: string, parse: string -> Option<real>, tempKeysExist: bool): (r: Route)
  {
    match Lookup(Commands, CommandWord(text))
    case Some(r) => r
    case None =>
      if parse(Normalize(text)).Some? then ExpenseAmount
      else if IsCategoryPlannedAmountInput(text, parse, tempKeysExist) then CategoryPlannedAmount
      else Unknown
  }

  /** A command word in any letter case, alone or followed by arguments,
      reaches its handler. */
  lemma CommandReachable(i: int, w: string, args: string, parse: string -> Option<real>, tempKeysExist: bool)
    requires 0 <= i < |Commands| && ' ' !in w && ToLower(w) == Commands[i].0
    ensures Dispatch(w + " " + args, parse, tempKeysExist) == Commands[i].1
    ensures Dispatch(w, parse, tempKeysExist) == Commands[i].1
  {
    SplitHead(w, args, ' ');
    NoSeparatorSplit(w, ' ');
    CommandsDistinct();
    LookupFinds(Commands, i);
  }

  /** In a table of distinct entries, entry `i`'s route is found exactly
      for its own name. */
  lemma LookupExactly(table: seq<(string, Route)>, name: string, i: int)
    requires DistinctEntries(table) && 0 <= i < |table|
    ensures Lookup(table, name) == Some(table[i].1) <==> name == table[i].0
  {
    LookupFinds(table, i);
    var found := Lookup(table, name);
    if found == Some(table[i].1) {
      var j :| 0 <= j < |table| && table[j] == (name, found.value);
    }
  }

  /** The fallback routes are not in the command table. */
  lemma CommandsAreCommands()
    ensures forall i :: 0 <= i < |Commands| ==> Commands[i].1 !in {ExpenseAmount, CategoryPlannedAmount, Unknown}
  {
  }

  /** A command's route is taken exactly when the lower-cased first word is
      that command. */
  lemma CommandRouting(text: string, i: int, parse: string -> Option<real>, tempKeysExist: bool)
    requires 0 <= i < |Commands|
    ensures Dispatch(text, parse, tempKeysExist) == Commands[i].1 <==> CommandWord(text) == Commands[i].0
  {
    CommandsDistinct();
    CommandsAreCommands();
    LookupExactly(Commands, CommandWord(text), i);
  }

  /** Every text `IsCategoryPlannedAmountInput` accepts already parses as an
      expense amount, so the planned-amount branch is never taken. */
  lemma PlannedAmountUnreachable(text: string, parse: string -> Option<real>, tempKeysExist: bool)
    ensures Dispatch(text, parse, tempKeysExist) != CategoryPlannedAmount
  {
    CommandsAreCommands();
    LookupMissing(Commands, CommandWord(text));
  }

  /** Every text that `IsCategoryPlannedAmountInput` accepts, and that is no
      command, is already taken by the expense-amount branch. */
  lemma PlannedAmountInputShadowed(text: string, parse: string -> Option<real>, tempKeysExist: bool)
    requires forall i :: 0 <= i < |Commands| ==> Commands[i].0 != CommandWord(text)
    ensures IsCategoryPlannedAmountInput(text, parse, tempKeysExist) ==>
              Dispatch(text, parse, tempKeysExist) == ExpenseAmount
  {
    LookupMissing(Commands, CommandWord(text));
  }

  /** A message is answered as unknown exactly when its first word is no
      command and it does not parse as an amount. */
  lemma UnknownExactly(text: string, parse: string -> Option<real>, tempKeysExist: bool)
    ensures Dispatch(text, parse, tempKeysExist) == Unknown
        <==> (forall i :: 0 <= i < |Commands| ==> Commands[i].0 != CommandWord(text))
             && parse(Normalize(text)).None?
  {
    CommandsAreCommands();
    LookupMissing(Commands, CommandWord(text));
  }

  /** A lookup fails exactly when no entry has the name. */
  lemma LookupMissing(table: seq<(string, Route)>, name: string)
    ensures Lookup(table, name).None? <==> forall i :: 0 <= i < |table| ==> table[i].0 != name
  {
    if Lookup(table, name).Some? {
      var i :| 0 <= i < |table| && table[i] == (name, Lookup(table, name).value);
    }
  }

  // ---------------------------------------------------------------------------
  // Routing a callback query

  datatype CallbackRoute = PickCategory | PickAmount | CancelExpense | HistoryAction | PickAnalyticsMonth | Unmatched

  /** The tests of the callback branch, in the order they are made. */
  function ClassifyCallback(data: string): (r: CallbackRoute)
  {
    if StartsWith(data, "expense_category:") then PickCategory
    else if StartsWith(data, "expense_amount:") then PickAmount
    else if StartsWith(data, "expense_cancel:") then CancelExpense
    else if Contains(data, "expense_history") || Contains(data, "expense_edit") || Contains(data, "expense_delete")
    then HistoryAction
    else if StartsWith(data, "analytics_month:") then PickAnalyticsMonth
    else Unmatched
  }

  lemma PrefixChar(data: string, prefix: string, k: int)
    requires StartsWith(data, prefix) && 0 <= k < |prefix|
    ensures data[k] == prefix[k]
  {
    assert data[..|prefix|][k] == data[k];
  }

  /** The four callback prefixes exclude one another, so the order of the
      prefix tests decides nothing among them. */
  lemma CallbackPrefixesExclusive(data: string)
    ensures StartsWith(data, "expense_category:") ==>
      !StartsWith(data, "expense_amount:") && !StartsWith(data, "expense_cancel:") && !StartsWith(data, "analytics_month:")
    ensures StartsWith(data, "expense_amount:") ==>
      !StartsWith(data, "expense_cancel:") && !StartsWith(data, "analytics_month:")
    ensures StartsWith(data, "expense_cancel:") ==> !StartsWith(data, "analytics_month:")
  {
    if StartsWith(data, "expense_category:") {
      PrefixChar(data, "expense_category:", 0);
      PrefixChar(data, "expense_category:", 8);
      PrefixChar(data, "expense_category:", 10);
    }
    if StartsWith(data, "expense_amount:") {
      PrefixChar(data, "expense_amount:", 0);
      PrefixChar(data, "expense_amount:", 8);
    }
    if StartsWith(data, "expense_cancel:") {
      PrefixChar(data, "expense_cancel:", 0);
    }
  }

  /** The history test comes first: month data that mentions a history
      action is never read as a month selection. */
  lemma HistoryShadowsAnalytics(data: string)
    requires StartsWith(data, "analytics_month:") && Contains(data, "expense_history")
    ensures ClassifyCallback(data) == HistoryAction
  {
    PrefixChar(data, "analytics_month:", 0);
  }

  /** The store after a callback: choosing an amount remembers the category
      under `expense_temp_category:{user}`, cancelling forgets it. */
  function CallbackStore(m: Data, userId: Long, data: string): (r: Data)
  {
    match ClassifyCallback(data)
    case PickAmount =>
      var parts := Split(data, ':');
      if |parts| >= 3 then m[ExpenseTempCategory(userId) := Str(Plain(parts[1]))] else m
    case CancelExpense => m - {ExpenseTempCategory(userId)}
    case _ => m
  }

  /** The query is answered, and the user is told only if that succeeded. */
  function AnswerThenTell(data: string, userId: Long, reply: Reply, answerFails: string -> bool, sendFails: int -> bool): (r: seq<Call>)
  {
    [Answer(data, !answerFails(data))] + (if answerFails(data) then [] else [Message(userId, reply, !sendFails(userId))])
  }

  /** The calls a callback makes; the query id answered is the callback data. */
  function CallbackCalls(userId: Long, data: string, answerFails: string -> bool, sendFails: int -> bool): (r: seq<Call>)
  {
    match ClassifyCallback(data)
    case PickAmount =>
      if |Split(data, ':')| >= 3 then AnswerThenTell(data, userId, EnterExpenseAmount, answerFails, sendFails) else []
    case CancelExpense => AnswerThenTell(data, userId, ExpenseCancelled, answerFails, sendFails)
    case PickAnalyticsMonth =>
      if |Split(data, ':')| >= 3 then [Answer(data, !answerFails(data))] else []
    case _ => []
  }

  /** The amount buttons of a category carry the category back: pressing
      `expense_amount:{category}:{amount}` remembers that category for the user. */
  lemma AmountButtonRemembersCategory(m: Data, userId: Long, category: string, amount: string)
    requires ':' !in category
    ensures CallbackStore(m, userId, "expense_amount:" + category + ":" + amount)
         == m[ExpenseTempCategory(userId) := Str(Plain(category))]
  {
    var data := "expense_amount:" + category + ":" + amount;
    PrefixChar(data, "expense_amount:", 8);
    assert StartsWith(data, "expense_amount:");
    assert data == "expense_amount" + [':'] + (category + [':'] + amount);
    SplitAfter("expense_amount", category + [':'] + amount, ':');
    SplitAfter(category, amount, ':');
  }

  /** A category whose name holds a colon comes back cut at its first colon:
      only `head` of `head:tail` is remembered. */
  lemma AmountButtonCutsCategory(m: Data, userId: Long, head: string, tail: string, amount: string)
    requires ':' !in head
    ensures CallbackStore(m, userId, "expense_amount:" + (head + ":" + tail) + ":" + amount)
         == m[ExpenseTempCategory(userId) := Str(Plain(head))]
  {
    assert "expense_amount:" + (head + ":" + tail) + ":" + amount
        == "expense_amount:" + head + ":" + (tail + ":" + amount);
    AmountButtonRemembersCategory(m, userId, head, tail + ":" + amount);
  }

  /** A callback touches at most the user's temporary category and keeps the
      schema. */
  lemma CallbackTouchesOnlyTempKey(m: Data, userId: Long, data: string)
    requires WellTyped(m)
    ensures AgreeExcept(CallbackStore(m, userId, data), m, {ExpenseTempCategory(userId)})
    ensures WellTyped(CallbackStore(m, userId, data))
  {
  }

  /** Cancelling after choosing an amount leaves no temporary category, as if
      the amount had never been chosen. */
  lemma CancelUndoesPick(m: Data, userId: Long, pick: string, cancel: string)
    requires ClassifyCallback(pick) == PickAmount && ClassifyCallback(cancel) == CancelExpense
    ensures CallbackStore(CallbackStore(m, userId, pick), userId, cancel) == m - {ExpenseTempCategory(userId)}
  {
  }

  // ---------------------------------------------------------------------------
  // The update handler

  /** A request to a finance-handler member outside this model. */
  datatype Delegation =
    | NoDelegation
    | ExpenseAmountInput(userId: Long, text: string)
    | CategoryPlannedAmountInput(userId: Long, text: string)
    | ExpenseHistoryCommand(userId: Long, text: string)
    | ExpenseCategoryCallback(userId: Long, data: string)
    | ExpenseHistoryCallback(userId: Long, data: string)
    | ExpenseAnalytics(userId: Long, month: string)

  /** What the message route hands on to the finance handler. */
  function MessageDelegation(route: Route, userId: Long, text: string): (r: Delegation)
  {
    match route
    case ExpenseAmount => ExpenseAmountInput(userId, text)
    case CategoryPlannedAmount => CategoryPlannedAmountInput(userId, text)
    case FinExpenseHistory => ExpenseHistoryCommand(userId, text)
    case _ => NoDelegation
  }

  /** What the callback route hands on to the finance handler. */
  function CallbackDelegation(userId: Long, data: string, answerFails: string -> bool): (r: Delegation)
  {
    match ClassifyCallback(data)
    case PickCategory => ExpenseCategoryCallback(userId, data)
    case HistoryAction => ExpenseHistoryCallback(userId, data)
    case PickAnalyticsMonth =>
      var parts := Split(data, ':');
      if |parts| >= 3 && !answerFails(data) then ExpenseAnalytics(userId, parts[1]) else NoDelegation
    case _ => NoDelegation
  }

  /** The reply the router sends itself, for the routes that have one. */
  function LocalReply(route: Route): (r: Reply)
  {
    match route
    case Start => Help
    case Gav => Woof
    case _ => UnknownCommand
  }

  /** The routes whose handlers only read the store. */
  predicate ReadOnly(route: Route)
  {
    route in {Status, PaymentHistory, FinListCategories, FinAddExpense, FinAnalytics}
  }

  /** The routes handed on to a finance member outside this model: the router
      itself makes no store change and no call for them, and what it hands on
      is the `Delegation` value. */
  predicate Delegated(route: Route)
  {
    route in {FinExpenseHistory, ExpenseAmount, CategoryPlannedAmount}
  }

  class UpdateHandler {
    const bot: Bot
    const ipoteka: IpotekaHandler
    const finance: FinanceHandler

    constructor (bot: Bot, ipoteka: IpotekaHandler, finance: FinanceHandler)
      ensures this.bot == bot && this.ipoteka == ipoteka && this.finance == finance
    {
      this.bot, this.ipoteka, this.finance := bot, ipoteka, finance;
    }

    /** A text message from `userId` in `chatId`. `moscowNow` and `paidAt` are
        the Moscow-time clock readings of `/set` and `/pay`, `utcNow` the UTC
        reading of `/fin_analytics`. */
    method HandleMessage(chatId: Long, userId: Long, text: string, redis: Redis,
                         moscowNow: DateTime, paidAt: DateTime, utcNow: DateTime, tempKeysExist: bool)
      returns (route: Route, delegation: Delegation)
      requires ipoteka.bot == bot && finance.bot == bot
      requires redis.Valid() && ValidDateTime(utcNow)
      modifies redis, bot
      ensures redis.Valid()
      ensures route == Dispatch(text, ipoteka.parseAmount, tempKeysExist)
      ensures delegation == MessageDelegation(route, userId, text)
      ensures route in {Start, Gav, Unknown} ==>
        && redis.data == old(redis.data)
        && bot.log == old(bot.log) + [Message(chatId, LocalReply(route), !bot.SendFails(chatId))]
      ensures ReadOnly(route) ==> redis.data == old(redis.data)
      ensures Delegated(route) ==> redis.data == old(redis.data) && bot.log == old(bot.log)
    {
      route := Dispatch(text, ipoteka.parseAmount, tempKeysExist);
      delegation := MessageDelegation(route, userId, text);
      Run(route, chatId, userId, text, redis, moscowNow, paidAt, utcNow);
    }

    /** The handler call of one route. */
    method Run(route: Route, chatId: Long, userId: Long, text: string, redis: Redis,
               moscowNow: DateTime, paidAt: DateTime, utcNow: DateTime)
      requires ipoteka.bot == bot && finance.bot == bot
      requires redis.Valid() && ValidDateTime(utcNow)
      modifies redis, bot
      ensures redis.Valid()
      ensures route in {Start, Gav, Unknown} ==>
        && redis.data == old(redis.data)
        && bot.log == old(bot.log) + [Message(chatId, LocalReply(route), !bot.SendFails(chatId))]
      ensures ReadOnly(route) ==> redis.data == old(redis.data)
      ensures Delegated(route) ==> redis.data == old(redis.data) && bot.log == old(bot.log)
    {
      if route in {Start, Gav, Unknown} {
        var _ := bot.Send(chatId, LocalReply(route));
      } else if route in {Authorize, UserAuthorize, SetCredit, Pay, Status, PaymentHistory} {
        RunLedger(route, chatId, userId, text, redis, moscowNow, paidAt);
      } else {
        RunFinance(route, userId, text, redis, utcNow);
      }
    }

    /** The loan-ledger commands. */
    method RunLedger(route: Route, chatId: Long, userId: Long, text: string, redis: Redis,
                     moscowNow: DateTime, paidAt: DateTime)
      requires ipoteka.bot == bot
      requires redis.Valid()
      modifies redis, bot
      ensures redis.Valid()
      ensures ReadOnly(route) ==> redis.data == old(redis.data)
    {
      match route {
        case Authorize =>
          ipoteka.HandleAuthorize(chatId, text, redis);
        case UserAuthorize =>
          ipoteka.HandleUserAuthorize(userId, text, redis);
        case SetCredit =>
          var _ := ipoteka.HandleSet(chatId, userId, text, redis, moscowNow);
        case Pay =>
          var _ := ipoteka.HandlePay(userId, text, redis, moscowNow, paidAt);
        case Status =>
          ipoteka.ShowStatus(chatId, redis);
        case PaymentHistory =>
          ipoteka.ShowHistory(chatId, redis);
        case _ =>
      }
    }

    /** The finance commands; `/fin_history` and the amount inputs are handed
        on without a call here. */
    method RunFinance(route: Route, userId: Long, text: string, redis: Redis, utcNow: DateTime)
      requires finance.bot == bot
      requires redis.Valid() && ValidDateTime(utcNow)
      modifies redis, bot
      ensures redis.Valid()
      ensures ReadOnly(route) ==> redis.data == old(redis.data)
      ensures Delegated(route) ==> redis.data == old(redis.data) && bot.log == old(bot.log)
    {
      match route {
        case FinAuth =>
          finance.HandleFinAuth(userId, text, redis);
        case FinAddCategory =>
          finance.HandleFinAddCategory(userId, text, redis);
        case FinListCategories =>
          var _ := finance.HandleFinListCategories(userId, redis);
        case FinSetBudget =>
          finance.HandleFinSetBudget(userId, text, redis);
        case FinAddExpense =>
          finance.HandleFinAddExpense(userId, redis);
        case FinAnalytics =>
          finance.HandleFinAnalytics(userId, text, redis, utcNow);
        case _ =>
      }
    }

    /** A callback query from `userId` carrying `data`. A failed answer ends
        the branch: the exception is only logged. */
    method HandleCallback(userId: Long, data: string, redis: Redis)
      returns (route: CallbackRoute, delegation: Delegation)
      requires redis.Valid()
      modifies redis, bot
      ensures redis.Valid()
      ensures route == ClassifyCallback(data)
      ensures redis.data == CallbackStore(old(redis.data), userId, data)
      ensures bot.log == old(bot.log) + CallbackCalls(userId, data, bot.AnswerFails, bot.SendFails)
      ensures delegation == CallbackDelegation(userId, data, bot.AnswerFails)
    {
      CallbackTouchesOnlyTempKey(redis.data, userId, data);
      route := ClassifyCallback(data);
      delegation := NoDelegation;
      match route {
        case PickCategory =>
          delegation := ExpenseCategoryCallback(userId, data);
        case PickAmount =>
          var parts := Split(data, ':');
          if |parts| >= 3 {
            redis.StringSet(ExpenseTempCategory(userId), Plain(parts[1]));
            var answered := bot.AnswerCallback(data);
            if answered {
              var _ := bot.Send(userId, EnterExpenseAmount);
            }
          }
        case CancelExpense =>
          redis.KeyDelete(ExpenseTempCategory(userId));
          var answered := bot.AnswerCallback(data);
          if answered {
            var _ := bot.Send(userId, ExpenseCancelled);
          }
        case HistoryAction =>
          delegation := ExpenseHistoryCallback(userId, data);
        case PickAnalyticsMonth =>
          var parts := Split(data, ':');
          if |parts| >= 3 {
            var answered := bot.AnswerCallback(data);
            if answered {
              delegation := ExpenseAnalytics(userId, parts[1]);
            }
          }
        case Unmatched =>
      }
    }
  }
}
