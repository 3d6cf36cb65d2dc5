/** The key schema of the key-value store (Models/UtilityKeys.cs), plus the
    per-user temporary key the callback router builds inline (Program.cs). */
module Keys {
  import opened Text

  function CreditKey(): (r: string) { "credit:global" }
  function HistoryKey(): (r: string) { "history:global" }
  function AuthChatsKey(): (r: string) { "auth:chats" }
  function AuthUsersKey(): (r: string) { "auth:users" }
  function FinAuthUsersKey(): (r: string) { "fin:auth_users" }
  function FinCategoriesKey(userId: int): (r: string) { "fin:categories:" + Dec(userId) }
  function FinCategoryDataKey(userId: int, category: string): (r: string) { "fin:category:" + Dec(userId) + ":" + category }
  function FinBudgetKey(userId: int, month: string): (r: string) { "fin:budget:" + Dec(userId) + ":" + month }
  function FinExpensesKey(userId: int, month: string): (r: string) { "fin:expenses:" + Dec(userId) + ":" + month }

  /** `expense_temp_category:{userId}`, the pending expense category of a user. */
  function ExpenseTempCategoryKey(userId: int): (r: string) { "expense_temp_category:" + Dec(userId) }

  /** The five fixed keys are pairwise distinct. */
  lemma ConstantKeysDistinct()
    ensures CreditKey() != HistoryKey() && CreditKey() != AuthChatsKey()
    ensures CreditKey() != AuthUsersKey() && CreditKey() != FinAuthUsersKey()
    ensures HistoryKey() != AuthChatsKey() && HistoryKey() != AuthUsersKey()
    ensures HistoryKey() != FinAuthUsersKey()
    ensures AuthChatsKey() != AuthUsersKey() && AuthChatsKey() != FinAuthUsersKey()
    ensures AuthUsersKey() != FinAuthUsersKey()
  {
  }

  /** A text made of a colon-free head, a colon and a tail determines head and tail. */
  lemma ColonSplitUnique(a: string, b: string, a': string, b': string)
    requires ':' !in a && ':' !in a'
    requires a + ":" + b == a' + ":" + b'
    ensures a == a' && b == b'
  {
    var s := a + ":" + b;
    assert s[..|a|] == a && s[|a|] == ':';
    assert s[..|a'|] == a' && s[|a'|] == ':';
    assert s[|a| + 1..] == b;
  }

  /** Removing a common prefix preserves equality. */
  lemma StripPrefix(p: string, x: string, y: string)
    requires p + x == p + y
    ensures x == y
  {
    assert x == (p + x)[|p|..];
    assert y == (p + y)[|p|..];
  }

  lemma FinCategoriesKeyInjective(u: int, v: int)
    ensures FinCategoriesKey(u) == FinCategoriesKey(v) <==> u == v
  {
    if FinCategoriesKey(u) == FinCategoriesKey(v) {
      StripPrefix("fin:categories:", Dec(u), Dec(v));
      DecInjective(u, v);
    }
  }

  /** `prefix + id + ":" + rest` determines id and rest, because a rendered
      id holds no colon. */
  lemma IdAndRestInjective(p: string, u: int, m: string, v: int, n: string)
    ensures p + Dec(u) + ":" + m == p + Dec(v) + ":" + n <==> u == v && m == n
  {
    var x, y := Dec(u) + ":" + m, Dec(v) + ":" + n;
    Regroup(p, Dec(u), m);
    Regroup(p, Dec(v), n);
    if p + x == p + y {
      StripPrefix(p, x, y);
      ColonSplitUnique(Dec(u), m, Dec(v), n);
      DecInjective(u, v);
    }
  }

  lemma Regroup(p: string, d: string, m: string)
    ensures p + d + ":" + m == p + (d + ":" + m)
  {
  }

  lemma FinCategoryDataKeyInjective(u: int, c: string, v: int, d: string)
    ensures FinCategoryDataKey(u, c) == FinCategoryDataKey(v, d) <==> u == v && c == d
  {
    IdAndRestInjective("fin:category:", u, c, v, d);
  }

  lemma FinBudgetKeyInjective(u: int, m: string, v: int, n: string)
    ensures FinBudgetKey(u, m) == FinBudgetKey(v, n) <==> u == v && m == n
  {
    IdAndRestInjective("fin:budget:", u, m, v, n);
  }

  lemma FinExpensesKeyInjective(u: int, m: string, v: int, n: string)
    ensures FinExpensesKey(u, m) == FinExpensesKey(v, n) <==> u == v && m == n
  {
    IdAndRestInjective("fin:expenses:", u, m, v, n);
  }

  lemma ExpenseTempCategoryKeyInjective(u: int, v: int)
    ensures ExpenseTempCategoryKey(u) == ExpenseTempCategoryKey(v) <==> u == v
  {
    if ExpenseTempCategoryKey(u) == ExpenseTempCategoryKey(v) {
      StripPrefix("expense_temp_category:", Dec(u), Dec(v));
      DecInjective(u, v);
    }
  }

  /** Every finance key starts with `fin:`, and no loan key does. */
  lemma FinancePrefix(u: int, m: string)
    ensures StartsWith(FinAuthUsersKey(), "fin:")
    ensures StartsWith(FinCategoriesKey(u), "fin:") && StartsWith(FinCategoryDataKey(u, m), "fin:")
    ensures StartsWith(FinBudgetKey(u, m), "fin:") && StartsWith(FinExpensesKey(u, m), "fin:")
    ensures !StartsWith(CreditKey(), "fin:") && !StartsWith(HistoryKey(), "fin:")
    ensures !StartsWith(AuthChatsKey(), "fin:") && !StartsWith(AuthUsersKey(), "fin:")
  {
    assert FinCategoriesKey(u)[..4] == "fin:";
    assert FinCategoryDataKey(u, m)[..4] == "fin:";
    assert FinBudgetKey(u, m)[..4] == "fin:";
    assert FinExpensesKey(u, m)[..4] == "fin:";
    assert CreditKey()[..4][0] == 'c' && HistoryKey()[..4][0] == 'h';
    assert AuthChatsKey()[..4][0] == 'a' && AuthUsersKey()[..4][0] == 'a';
  }

  /** A key of the store, by family; `Name` renders it as the Redis key. */
  datatype Key =
    | Credit | History | AuthChats | AuthUsers | FinAuthUsers
    | FinCategories(userId: int)
    | FinCategoryData(userId: int, category: string)
    | FinBudget(userId: int, month: string)
    | FinExpenses(userId: int, month: string)
    | ExpenseTempCategory(userId: int)

  function Name(k: Key): (r: string)
  {
    match k
    case Credit => CreditKey()
    case History => HistoryKey()
    case AuthChats => AuthChatsKey()
    case AuthUsers => AuthUsersKey()
    case FinAuthUsers => FinAuthUsersKey()
    case FinCategories(u) => FinCategoriesKey(u)
    case FinCategoryData(u, c) => FinCategoryDataKey(u, c)
    case FinBudget(u, m) => FinBudgetKey(u, m)
    case FinExpenses(u, m) => FinExpensesKey(u, m)
    case ExpenseTempCategory(u) => ExpenseTempCategoryKey(u)
  }

  /** The first and fifth character of a key's name. They tell the families
      apart, except the two `auth:` sets and the two `fin:categor…` families. */
  function Mark(k: Key): (r: (char, char))
  {
    match k
    case Credit => ('c', 'i')
    case History => ('h', 'o')
    case AuthChats => ('a', ':')
    case AuthUsers => ('a', ':')
    case FinAuthUsers => ('f', 'a')
    case FinCategories(_) => ('f', 'c')
    case FinCategoryData(_, _) => ('f', 'c')
    case FinBudget(_, _) => ('f', 'b')
    case FinExpenses(_, _) => ('f', 'e')
    case ExpenseTempCategory(_) => ('e', 'n')
  }

  lemma NameMark(k: Key)
    ensures |Name(k)| > 4 && Name(k)[0] == Mark(k).0 && Name(k)[4] == Mark(k).1
  {
  }

  /** `fin:categories:` and `fin:category:` part at their twelfth character. */
  lemma CategoryFamiliesApart(u: int, v: int, c: string)
    ensures FinCategoriesKey(u) != FinCategoryDataKey(v, c)
  {
    assert FinCategoriesKey(u)[11] == 'i';
    assert FinCategoryDataKey(v, c)[11] == 'y';
  }

  /** Distinct keys render as distinct Redis keys, so a store indexed by Key
      behaves as one indexed by the rendered strings. */
  lemma NameInjective(k: Key, j: Key)
    ensures Name(k) == Name(j) <==> k == j
  {
    NameMark(k);
    NameMark(j);
    if Name(k) == Name(j) {
      ConstantKeysDistinct();
      match k
      case FinCategories(u) =>
        if j.FinCategories? { FinCategoriesKeyInjective(u, j.userId); }
        else if j.FinCategoryData? { CategoryFamiliesApart(u, j.userId, j.category); }
      case FinCategoryData(u, c) =>
        if j.FinCategoryData? { FinCategoryDataKeyInjective(u, c, j.userId, j.category); }
        else if j.FinCategories? { CategoryFamiliesApart(j.userId, u, c); }
      case FinBudget(u, m) =>
        if j.FinBudget? { FinBudgetKeyInjective(u, m, j.userId, j.month); }
      case FinExpenses(u, m) =>
        if j.FinExpenses? { FinExpensesKeyInjective(u, m, j.userId, j.month); }
      case ExpenseTempCategory(u) =>
        if j.ExpenseTempCategory? { ExpenseTempCategoryKeyInjective(u, j.userId); }
      case _ =>
    }
  }
}
