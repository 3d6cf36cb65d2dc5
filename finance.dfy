/** The finance tracker (Handlers/FinanceHandler.cs): token-gated access,
    per-user category sets, monthly budgets, and the per-category analytics of
    a month's expenses. */
module Finance {
  import opened Text
  import opened Keys
  import opened Models
  import opened Store
  import opened Outbox

  // ---------------------------------------------------------------------------
  // The analytics grouping, as values

  /** The categories of `es`, each once, in order of first appearance: the
      keys `GroupBy(e => e.Category)` yields. */
  function Categories(es: seq<ExpenseRecord>): (r: seq<string>)
    decreases |es|
  {
    if es == [] then []
    else
      var cs := Categories(es[..|es| - 1]);
      var c := es[|es| - 1].Category;
      if c in cs then cs else cs + [c]
  }

  /** The total of the expenses of category `c`. */
  function CategoryTotal(es: seq<ExpenseRecord>, c: string): (r: real)
    decreases |es|
  {
    if es == [] then 0.0
    else
      var e := es[|es| - 1];
      CategoryTotal(es[..|es| - 1], c) + (if e.Category == c then e.Amount else 0.0)
  }

  /** The report the analytics describe: one group per category, in order of
      first appearance, each with the total of its category. */
  function Groups(es: seq<ExpenseRecord>): (gs: seq<CategorySum>)
    ensures |gs| == |Categories(es)|
    ensures forall i :: 0 <= i < |gs| ==> gs[i] == CategorySum(Categories(es)[i], CategoryTotal(es, Categories(es)[i]))
  {
    var cs := Categories(es);
    seq(|cs|, i requires 0 <= i < |cs| => CategorySum(cs[i], CategoryTotal(es, cs[i])))
  }

  /** The total of all expenses. */
  function ExpenseTotal(es: seq<ExpenseRecord>): (r: real)
    decreases |es|
  {
    if es == [] then 0.0 else ExpenseTotal(es[..|es| - 1]) + es[|es| - 1].Amount
  }

  /** `expenses.Sum(x => x.Sum)`. */
  function GroupTotal(gs: seq<CategorySum>): (r: real)
    decreases |gs|
  {
    if gs == [] then 0.0 else GroupTotal(gs[..|gs| - 1]) + gs[|gs| - 1].Sum
  }

  /** Index of the group of category `c`, or |gs| when there is none. */
  function GroupIndex(gs: seq<CategorySum>, c: string): (i: nat)
    ensures i <= |gs|
    ensures i < |gs| ==> gs[i].Category == c
    ensures forall j :: 0 <= j < i ==> gs[j].Category != c
    decreases |gs|
  {
    if gs == [] then 0
    else if gs[0].Category == c then 0
    else 1 + GroupIndex(gs[1..], c)
  }

  /** One step of the grouping pass: the expense joins the group of its
      category, or opens a new group at the end. */
  function AddExpense(gs: seq<CategorySum>, e: ExpenseRecord): (r: seq<CategorySum>)
  {
    var i := GroupIndex(gs, e.Category);
    if i < |gs| then gs[i := CategorySum(e.Category, gs[i].Sum + e.Amount)]
    else gs + [CategorySum(e.Category, e.Amount)]
  }

  /** `GroupBy(e => e.Category).Select(g => new { Category = g.Key, Sum = g.Sum(x => x.Amount) })`,
      as the single pass over the list that a lookup performs. */
  function GroupBy(es: seq<ExpenseRecord>): (r: seq<CategorySum>)
    decreases |es|
  {
    if es == [] then [] else AddExpense(GroupBy(es[..|es| - 1]), es[|es| - 1])
  }

  /** A category is listed exactly when some expense has it. */
  lemma {:induction false} CategoriesMembers(es: seq<ExpenseRecord>, c: string)
    ensures c in Categories(es) <==> exists i :: 0 <= i < |es| && es[i].Category == c
    decreases |es|
  {
    if es != [] {
      var init := es[..|es| - 1];
      CategoriesMembers(init, c);
      if exists i :: 0 <= i < |init| && init[i].Category == c {
        var i :| 0 <= i < |init| && init[i].Category == c;
        assert es[i] == init[i];
      }
      if exists i :: 0 <= i < |es| && es[i].Category == c {
        var i :| 0 <= i < |es| && es[i].Category == c;
        if i < |init| { assert init[i] == es[i]; }
      }
    }
  }

  /** No category is listed twice. */
  lemma {:induction false} CategoriesDistinct(es: seq<ExpenseRecord>)
    ensures forall i, j :: 0 <= i < j < |Categories(es)| ==> Categories(es)[i] != Categories(es)[j]
    decreases |es|
  {
    if es != [] {
      CategoriesDistinct(es[..|es| - 1]);
    }
  }

  /** Categories appear in order of first appearance: whenever an expense has
      a later-listed category, some earlier expense has the earlier-listed one. */
  lemma {:induction false} CategoriesOrdered(es: seq<ExpenseRecord>, i: int, j: int, k: int)
    requires 0 <= i < j < |Categories(es)|
    requires 0 <= k < |es| && es[k].Category == Categories(es)[j]
    ensures exists l :: 0 <= l < k && es[l].Category == Categories(es)[i]
    decreases |es|
  {
    var init := es[..|es| - 1];
    var cs0 := Categories(init);
    var c := es[|es| - 1].Category;
    if c in cs0 {
      if k < |init| {
        assert init[k] == es[k];
        CategoriesOrdered(init, i, j, k);
        var l :| 0 <= l < k && init[l].Category == cs0[i];
        assert es[l] == init[l];
      } else {
        CategoriesMembers(init, c);
        var k' :| 0 <= k' < |init| && init[k'].Category == c;
        CategoriesOrdered(init, i, j, k');
        var l :| 0 <= l < k' && init[l].Category == cs0[i];
        assert es[l] == init[l];
      }
    } else if j < |cs0| {
      assert k < |init|;
      assert init[k] == es[k];
      CategoriesOrdered(init, i, j, k);
      var l :| 0 <= l < k && init[l].Category == cs0[i];
      assert es[l] == init[l];
    } else {
      CategoriesMembers(init, c);
      assert k == |init|;
      CategoriesMembers(init, cs0[i]);
      var l :| 0 <= l < |init| && init[l].Category == cs0[i];
      assert es[l] == init[l];
    }
  }

  /** A category no expense has totals zero. */
  lemma {:induction false} AbsentTotalsZero(es: seq<ExpenseRecord>, c: string)
    requires c !in Categories(es)
    ensures CategoryTotal(es, c) == 0.0
    decreases |es|
  {
    if es != [] {
      AbsentTotalsZero(es[..|es| - 1], c);
    }
  }

  /** The grouping pass computes the described report. */
  lemma {:induction false} GroupByAgrees(es: seq<ExpenseRecord>)
    ensures GroupBy(es) == Groups(es)
    decreases |es|
  {
    if es != [] {
      var init := es[..|es| - 1];
      var e := es[|es| - 1];
      GroupByAgrees(init);
      assert init + [e] == es;
      if e.Category in Categories(init) {
        AddToExistingGroup(init, e);
      } else {
        AddNewGroup(init, e);
      }
    }
  }

  /** An expense of a category already seen adds to that category's group. */
  lemma AddToExistingGroup(init: seq<ExpenseRecord>, e: ExpenseRecord)
    requires e.Category in Categories(init)
    ensures AddExpense(Groups(init), e) == Groups(init + [e])
  {
    var es := init + [e];
    assert es[..|es| - 1] == init;
    var cs0, gs0 := Categories(init), Groups(init);
    CategoriesDistinct(init);
    var p := GroupIndex(gs0, e.Category);
    assert p < |gs0| by {
      var q :| 0 <= q < |cs0| && cs0[q] == e.Category;
      assert gs0[q].Category == e.Category;
    }
    forall q | 0 <= q < |cs0| ensures AddExpense(gs0, e)[q] == Groups(es)[q] {
      if q != p {
        assert cs0[q] != cs0[p];
      }
    }
  }

  /** An expense of a new category opens a group at the end. */
  lemma AddNewGroup(init: seq<ExpenseRecord>, e: ExpenseRecord)
    requires e.Category !in Categories(init)
    ensures AddExpense(Groups(init), e) == Groups(init + [e])
  {
    var es := init + [e];
    assert es[..|es| - 1] == init;
    var cs0, gs0 := Categories(init), Groups(init);
    AbsentTotalsZero(init, e.Category);
    assert GroupIndex(gs0, e.Category) == |gs0|;
    forall q | 0 <= q < |cs0| ensures AddExpense(gs0, e)[q] == Groups(es)[q] {
      assert cs0[q] != e.Category;
    }
  }

  /** Replacing one group's sum changes the total by the difference. */
  lemma {:induction false} GroupTotalUpdate(gs: seq<CategorySum>, i: int, g: CategorySum)
    requires 0 <= i < |gs|
    ensures GroupTotal(gs[i := g]) == GroupTotal(gs) - gs[i].Sum + g.Sum
    decreases |gs|
  {
    var n := |gs| - 1;
    if i < n {
      GroupTotalUpdate(gs[..n], i, g);
      assert gs[i := g][..n] == gs[..n][i := g];
    } else {
      assert gs[i := g][..n] == gs[..n];
    }
  }

  lemma GroupTotalAppend(gs: seq<CategorySum>, g: CategorySum)
    ensures GroupTotal(gs + [g]) == GroupTotal(gs) + g.Sum
  {
    assert (gs + [g])[..|gs|] == gs;
  }

  /** The group sums add up to the total of all expenses. */
  lemma {:induction false} GroupsSumToTotal(es: seq<ExpenseRecord>)
    ensures GroupTotal(Groups(es)) == ExpenseTotal(es)
    decreases |es|
  {
    GroupByAgrees(es);
    GroupByTotal(es);
  }

  lemma {:induction false} GroupByTotal(es: seq<ExpenseRecord>)
    ensures GroupTotal(GroupBy(es)) == ExpenseTotal(es)
    decreases |es|
  {
    if es != [] {
      var init := es[..|es| - 1];
      var e := es[|es| - 1];
      GroupByTotal(init);
      AddExpenseTotal(GroupBy(init), e);
    }
  }

  /** One grouping step adds the expense's amount to the total. */
  lemma AddExpenseTotal(gs: seq<CategorySum>, e: ExpenseRecord)
    ensures GroupTotal(AddExpense(gs, e)) == GroupTotal(gs) + e.Amount
  {
    var i := GroupIndex(gs, e.Category);
    if i < |gs| {
      GroupTotalUpdate(gs, i, CategorySum(e.Category, gs[i].Sum + e.Amount));
    } else {
      GroupTotalAppend(gs, CategorySum(e.Category, e.Amount));
    }
  }

  // ---------------------------------------------------------------------------
  // DateTime.ToString("yyyy-MM")

  /** `n` in base 10, left-padded with zeros to `width` digits. */
  function Padded(n: nat, width: nat): (s: string)
    ensures AllDigits(s) && |s| >= width
  {
    var d := NatDigits(n);
    if |d| >= width then d else Zeros(width - |d|) + d
  }

  function Zeros(k: nat): (z: string)
    ensures |z| == k && AllDigits(z)
  {
    if k == 0 then [] else "0" + Zeros(k - 1)
  }

  /** The month stamp of a date: four-digit year, a dash, two-digit month. */
  function MonthStamp(d: DateTime): (r: string)
    requires ValidDateTime(d)
  {
    Padded(d.year, 4) + "-" + Padded(d.month, 2)
  }

  /** Leading zeros do not change the value of a digit string. */
  lemma {:induction false} ZerosValue(k: nat, s: string)
    requires AllDigits(s)
    ensures DigitsValue(Zeros(k) + s) == DigitsValue(s)
    decreases |s|
  {
    if s == [] {
      assert Zeros(k) + s == Zeros(k);
      ZerosAlone(k);
    } else {
      var n := |s| - 1;
      var t := Zeros(k) + s;
      assert t[..|t| - 1] == Zeros(k) + s[..n];
      assert t[|t| - 1] == s[n];
      ZerosValue(k, s[..n]);
    }
  }

  lemma {:induction false} ZerosAlone(k: nat)
    ensures DigitsValue(Zeros(k)) == 0
    decreases k
  {
    if k > 0 {
      ZerosAlone(k - 1);
      assert Zeros(k) == Zeros(k - 1) + "0" by { ZerosSnoc(k - 1); }
      assert Zeros(k)[..k - 1] == Zeros(k - 1);
    }
  }

  lemma {:induction false} ZerosSnoc(k: nat)
    ensures "0" + Zeros(k) == Zeros(k) + "0"
    decreases k
  {
    if k > 0 {
      ZerosSnoc(k - 1);
    }
  }

  lemma {:induction false} NatDigitsShort(n: nat, width: nat)
    requires n < Pow10(width) && width >= 1
    ensures |NatDigits(n)| <= width
    decreases n
  {
    if n >= 10 {
      NatDigitsShort(n / 10, width - 1);
    }
  }

  function Pow10(k: nat): (r: nat)
  {
    if k == 0 then 1 else 10 * Pow10(k - 1)
  }

  lemma PaddedValue(n: nat, width: nat)
    requires 1 <= width && n < Pow10(width)
    ensures |Padded(n, width)| == width && DigitsValue(Padded(n, width)) == n
  {
    var d := NatDigits(n);
    assert |d| <= width by { NatDigitsShort(n, width); }
    assert DigitsValue(d) == n by { DigitsValueOfNatDigits(n); }
    if |d| < width {
      var z := Zeros(width - |d|);
      assert Padded(n, width) == z + d;
      assert DigitsValue(z + d) == n by { ZerosValue(width - |d|, d); }
    } else {
      assert Padded(n, width) == d;
    }
  }

  /** The month stamp reads back as the year and month it was made from. */
  lemma MonthStampReadsBack(d: DateTime)
    requires ValidDateTime(d)
    ensures var s := MonthStamp(d);
      && |s| == 7 && s[4] == '-' && AllDigits(s[..4]) && AllDigits(s[5..])
      && DigitsValue(s[..4]) == d.year && DigitsValue(s[5..]) == d.month
  {
    assert Pow10(4) == 10000 && Pow10(2) == 100;
    PaddedValue(d.year, 4);
    PaddedValue(d.month, 2);
    var s := MonthStamp(d);
    assert s[..4] == Padded(d.year, 4);
    assert s[5..] == Padded(d.month, 2);
  }

  // ---------------------------------------------------------------------------
  // Command arguments

  /** `text.Split(' ', 2)[1].Trim()`: everything after the first space,
      trimmed, so a category name may contain spaces. */
  function CategoryName(text: string): (r: Option<string>)
  {
    var parts := SplitTwo(text, ' ');
    if |parts| < 2 then None else Some(Trim(parts[1]))
  }

  /** The category name is the rest of the words joined back with spaces. */
  lemma CategoryNameIsRest(text: string)
    ensures var parts := Split(text, ' ');
      CategoryName(text) == if |parts| < 2 then None else Some(Trim(Join(parts[1..], ' ')))
  {
    SplitTwoAgrees(text, ' ');
  }

  /** The month `/fin_analytics` reports: the untrimmed second word, or the
      current month when there is none. */
  function AnalyticsMonth(text: string, now: DateTime): (r: string)
    requires ValidDateTime(now)
  {
    match Word(text, 1)
    case Some(w) => w
    case None => MonthStamp(now)
  }

  /** What `/fin_analytics` reports for a month's expense list. */
  function AnalyticsReply(month: string, es: seq<ExpenseRecord>): (r: Reply)
  {
    if es == [] then NoExpenses(month) else ExpenseReport(month, Groups(es))
  }

  // ---------------------------------------------------------------------------
  // The handler

  class FinanceHandler {
    const bot: Bot
    const finTokens: seq<string>
    /** `decimal.TryParse(s, CultureInfo.InvariantCulture, out _)`. */
    const parseNumber: string -> Option<real>

    constructor (bot: Bot, finTokens: seq<string>, parseNumber: string -> Option<real>)
      ensures this.bot == bot && this.finTokens == finTokens && this.parseNumber == parseNumber
    {
      this.bot, this.finTokens, this.parseNumber := bot, finTokens, parseNumber;
    }

    /** `/fin_auth token`: a finance token admits the user to `fin:auth_users`. */
    method HandleFinAuth(userId: Long, text: string, redis: Redis)
      requires redis.Valid()
      modifies redis, bot
      ensures redis.Valid()
      ensures var granted := Token(text).Some? && Token(text).value in finTokens;
        && redis.data == (if granted then WithMember(old(redis.data), FinAuthUsers, Dec(userId)) else old(redis.data))
        && bot.log == old(bot.log) + [Message(userId,
             if Token(text).None? then FinAuthUsage else if granted then FinAccessGranted else FinWrongToken,
             !bot.SendFails(userId))]
    {
      var token := Token(text);
      if token.None? {
        var _ := bot.Send(userId, FinAuthUsage);
        return;
      }
      if token.value in finTokens {
        SetUpdateKeepsTyped(redis.data, FinAuthUsers, Dec(userId), {});
        redis.SetAdd(FinAuthUsers, Dec(userId));
        var _ := bot.Send(userId, FinAccessGranted);
      } else {
        var _ := bot.Send(userId, FinWrongToken);
      }
    }

    /** `/fin_add_category name`: an authorised user adds the name to their
        category set; adding a name twice keeps one copy. */
    method HandleFinAddCategory(userId: Long, text: string, redis: Redis)
      requires redis.Valid()
      modifies redis, bot
      ensures redis.Valid()
      ensures Dec(userId) !in old(SetIn(redis.data, FinAuthUsers)) ==>
        redis.data == old(redis.data) && bot.log == old(bot.log) + [Message(userId, FinNoAccess, !bot.SendFails(userId))]
      ensures Dec(userId) in old(SetIn(redis.data, FinAuthUsers)) && CategoryName(text).None? ==>
        redis.data == old(redis.data) && bot.log == old(bot.log) + [Message(userId, CategoryUsage, !bot.SendFails(userId))]
      ensures Dec(userId) in old(SetIn(redis.data, FinAuthUsers)) && CategoryName(text).Some? ==>
        var name := CategoryName(text).value;
        && redis.data == WithMember(old(redis.data), FinCategories(userId), name)
        && bot.log == old(bot.log) + [Message(userId, CategoryAdded(name), !bot.SendFails(userId))]
    {
      if Dec(userId) !in SetIn(redis.data, FinAuthUsers) {
        var _ := bot.Send(userId, FinNoAccess);
        return;
      }
      var name := CategoryName(text);
      if name.None? {
        var _ := bot.Send(userId, CategoryUsage);
        return;
      }
      SetUpdateKeepsTyped(redis.data, FinCategories(userId), name.value, {});
      redis.SetAdd(FinCategories(userId), name.value);
      var _ := bot.Send(userId, CategoryAdded(name.value));
    }

    /** `/fin_categories`: the user's categories, each once, in the order the
        store lists them; no access check. */
    method HandleFinListCategories(userId: Long, redis: Redis) returns (names: seq<string>)
      modifies bot
      ensures |names| == |SetIn(redis.data, FinCategories(userId))|
      ensures Listing(names, SetIn(redis.data, FinCategories(userId)))
      ensures names == [] <==> SetIn(redis.data, FinCategories(userId)) == {}
      ensures bot.log == old(bot.log)
        + [Message(userId, if names == [] then NoCategoriesYet else CategoryListing(names), !bot.SendFails(userId))]
    {
      names := redis.SetMembers(FinCategories(userId));
      if |names| == 0 {
        var _ := bot.Send(userId, NoCategoriesYet);
        return;
      }
      var _ := bot.Send(userId, CategoryListing(names));
    }

    /** `/fin_set_budget month limit`: stores a budget with nothing spent
        under the trimmed month; no access check. */
    method HandleFinSetBudget(userId: Long, text: string, redis: Redis)
      requires redis.Valid()
      modifies redis, bot
      ensures redis.Valid()
      ensures var parts := Split(text, ' ');
        |parts| < 3 || parseNumber(parts[2]).None? ==>
        redis.data == old(redis.data) && bot.log == old(bot.log) + [Message(userId, BudgetUsage, !bot.SendFails(userId))]
      ensures var parts := Split(text, ' ');
        |parts| >= 3 && parseNumber(parts[2]).Some? ==>
        var month, limit := Trim(parts[1]), parseNumber(parts[2]).value;
        && redis.data == old(redis.data)[FinBudget(userId, month) := Str(BudgetJson(Budget(limit, 0.0)))]
        && bot.log == old(bot.log) + [Message(userId, BudgetSet(month, limit), !bot.SendFails(userId))]
    {
      var parts := Split(text, ' ');
      if |parts| < 3 || parseNumber(parts[2]).None? {
        var _ := bot.Send(userId, BudgetUsage);
        return;
      }
      var limit := parseNumber(parts[2]).value;
      var month := Trim(parts[1]);
      WriteKeepsTyped(redis.data, FinBudget(userId, month), Str(BudgetJson(Budget(limit, 0.0))));
      redis.StringSet(FinBudget(userId, month), BudgetJson(Budget(limit, 0.0)));
      var _ := bot.Send(userId, BudgetSet(month, limit));
    }

    /** `/fin_add_expense`: only checks access and that categories exist, and
        changes nothing. */
    method HandleFinAddExpense(userId: Long, redis: Redis)
      modifies bot
      ensures bot.log == old(bot.log) + [Message(userId,
        if Dec(userId) !in SetIn(redis.data, FinAuthUsers) then ExpenseNoAccess
        else if SetIn(redis.data, FinCategories(userId)) == {} then AddCategoriesFirst
        else ExpenseButtonsSoon,
        !bot.SendFails(userId))]
    {
      if Dec(userId) !in SetIn(redis.data, FinAuthUsers) {
        var _ := bot.Send(userId, ExpenseNoAccess);
        return;
      }
      var categories := redis.SetMembers(FinCategories(userId));
      if |categories| == 0 {
        var _ := bot.Send(userId, AddCategoriesFirst);
        return;
      }
      var _ := bot.Send(userId, ExpenseButtonsSoon);
    }

    /** `/fin_analytics [month]`: the month's expenses grouped by category;
        nothing is reported but their absence when there are none. */
    method HandleFinAnalytics(userId: Long, text: string, redis: Redis, now: DateTime)
      requires ValidDateTime(now)
      modifies bot
      ensures var month := AnalyticsMonth(text, now);
        bot.log == old(bot.log) + [Message(userId,
          AnalyticsReply(month, ExpensesIn(redis.data, FinExpenses(userId, month))), !bot.SendFails(userId))]
    {
      var month := match Word(text, 1) case Some(w) => w case None => MonthStamp(now);
      var list := ExpensesIn(redis.data, FinExpenses(userId, month));
      if |list| == 0 {
        var _ := bot.Send(userId, NoExpenses(month));
        return;
      }
      var groups := GroupBy(list);
      GroupByAgrees(list);
      var _ := bot.Send(userId, ExpenseReport(month, groups));
    }
  }
}
