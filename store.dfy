/** The key-value store, as an in-memory map from keys to string, set or list
    values, with the handful of commands the bot issues. Stored records are
    kept as datatypes instead of their JSON serialisation. */
module Store {
  import opened Text
  import opened Keys
  import opened Models

  /** A string value: a serialised record or a bare string. */
  datatype StringValue = CreditJson(credit: CreditData) | BudgetJson(budget: Budget) | Plain(text: string)

  datatype Value =
    | Str(str: StringValue)
    | Members(members: set<string>)
    | Payments(payments: seq<PaymentRecord>)
    | Expenses(expenses: seq<ExpenseRecord>)

  /** The store, indexed by Key; `Keys.NameInjective` makes this the same
      store as one indexed by the rendered key strings. */
  type Data = map<Key, Value>

  /** SMEMBERS as a set: the members at `k`, none when the key is absent. */
  function SetIn(m: Data, k: Key): (r: set<string>)
  {
    if k in m && m[k].Members? then m[k].members else {}
  }

  /** LRANGE 0 -1 of the payment list at `k`. */
  function PaymentsIn(m: Data, k: Key): (r: seq<PaymentRecord>)
  {
    if k in m && m[k].Payments? then m[k].payments else []
  }

  /** LRANGE 0 -1 of the expense list at `k`. */
  function ExpensesIn(m: Data, k: Key): (r: seq<ExpenseRecord>)
  {
    if k in m && m[k].Expenses? then m[k].expenses else []
  }

  /** The stored credit, if any. */
  function CreditIn(m: Data): (r: Option<CreditData>)
  {
    if Credit in m && m[Credit].Str? && m[Credit].str.CreditJson? then Some(m[Credit].str.credit) else None
  }

  /** The store after SADD k x. */
  function WithMember(m: Data, k: Key, x: string): (r: Data)
    ensures SetIn(r, k) == SetIn(m, k) + {x}
    ensures forall j :: j != k ==> (j in r <==> j in m) && (j in r ==> r[j] == m[j])
  {
    m[k := Members(SetIn(m, k) + {x})]
  }

  /** The store after SREM of every member of `xs`; like Redis, a set left
      empty is deleted. */
  function WithoutMembers(m: Data, k: Key, xs: set<string>): (r: Data)
    ensures SetIn(r, k) == SetIn(m, k) - xs
    ensures forall j :: j != k ==> (j in r <==> j in m) && (j in r ==> r[j] == m[j])
    ensures SetIn(m, k) - xs == {} <==> k !in r
  {
    var rest := SetIn(m, k) - xs;
    if rest == {} then m - {k} else m[k := Members(rest)]
  }

  /** SADD is idempotent. */
  lemma WithMemberIdempotent(m: Data, k: Key, x: string)
    ensures WithMember(WithMember(m, k, x), k, x) == WithMember(m, k, x)
  {
    assert SetIn(m, k) + {x} + {x} == SetIn(m, k) + {x};
  }

  /** Removing members one at a time is removing them all at once. */
  lemma WithoutMembersStep(m: Data, k: Key, xs: set<string>, x: string)
    ensures WithoutMembers(WithoutMembers(m, k, xs), k, {x}) == WithoutMembers(m, k, xs + {x})
  {
    assert SetIn(m, k) - xs - {x} == SetIn(m, k) - (xs + {x});
  }

  /** Removing nothing from a stored set changes nothing. */
  lemma WithoutNothing(m: Data, k: Key)
    requires k !in m || IsSet(m[k])
    ensures WithoutMembers(m, k, {}) == m
  {
    if k in m {
      assert SetIn(m, k) - {} == m[k].members;
      assert Members(m[k].members) == m[k];
      assert m[k := Members(m[k].members)] == m;
    }
  }

  /** Two stores agree on every key outside `ks`. */
  ghost predicate AgreeExcept(m1: Data, m2: Data, ks: set<Key>)
  {
    forall k :: k !in ks ==> (k in m1 <==> k in m2) && (k in m1 ==> m1[k] == m2[k])
  }

  // ---------------------------------------------------------------------------
  // The schema: every key of a family holds values of that family's kind

  /** A set value; the store deletes a set that loses its last member. */
  predicate IsSet(v: Value)
  {
    v.Members? && v.members != {}
  }

  /** The kind of value each key family holds. Category records are never
      written by the handlers modelled here, so their key admits anything. */
  predicate Fits(k: Key, v: Value)
  {
    match k
    case Credit => v.Str? && v.str.CreditJson?
    case History => v.Payments?
    case AuthChats => IsSet(v)
    case AuthUsers => IsSet(v)
    case FinAuthUsers => IsSet(v)
    case FinCategories(_) => IsSet(v)
    case FinCategoryData(_, _) => true
    case FinBudget(_, _) => v.Str? && v.str.BudgetJson?
    case FinExpenses(_, _) => v.Expenses?
    case ExpenseTempCategory(_) => v.Str? && v.str.Plain?
  }

  /** No command the bot issues hits a key holding another kind of value
      (Redis would answer WRONGTYPE). */
  ghost predicate WellTyped(m: Data)
  {
    forall k :: k in m ==> Fits(k, m[k])
  }

  lemma DeleteKeepsTyped(m: Data, k: Key)
    requires WellTyped(m)
    ensures WellTyped(m - {k})
  {
  }

  lemma WriteKeepsTyped(m: Data, k: Key, v: Value)
    requires WellTyped(m) && Fits(k, v)
    ensures WellTyped(m[k := v])
  {
  }

  /** SADD and SREM keep the schema at a set key. */
  lemma SetUpdateKeepsTyped(m: Data, k: Key, x: string, xs: set<string>)
    requires WellTyped(m)
    requires k.AuthChats? || k.AuthUsers? || k.FinAuthUsers? || k.FinCategories?
    ensures WellTyped(WithMember(m, k, x))
    ensures WellTyped(WithoutMembers(m, k, xs))
  {
  }

  /** `ms` lists the members of `s`, each once. */
  ghost predicate Listing(ms: seq<string>, s: set<string>)
  {
    (forall i, j :: 0 <= i < j < |ms| ==> ms[i] != ms[j]) && (forall x :: x in s <==> x in ms)
  }

  // ---------------------------------------------------------------------------
  // The store and its commands

  class Redis {
    var data: Data

    constructor ()
      ensures data == map[]
    {
      data := map[];
    }

    ghost predicate Valid()
      reads this
    {
      WellTyped(data)
    }

    /** SADD; a key holding another kind of value is excluded by the schema. */
    method SetAdd(k: Key, x: string)
      requires k !in data || data[k].Members?
      modifies this
      ensures data == WithMember(old(data), k, x)
    {
      data := WithMember(data, k, x);
    }

    /** SREM of one member. */
    method SetRemove(k: Key, x: string)
      modifies this
      ensures data == WithoutMembers(old(data), k, {x})
    {
      data := WithoutMembers(data, k, {x});
    }

    /** SET, which replaces whatever the key held. */
    method StringSet(k: Key, v: StringValue)
      modifies this
      ensures data == old(data)[k := Str(v)]
    {
      data := data[k := Str(v)];
    }

    /** DEL. */
    method KeyDelete(k: Key)
      modifies this
      ensures data == old(data) - {k}
    {
      data := data - {k};
    }

    /** RPUSH of a payment record. */
    method ListRightPush(k: Key, p: PaymentRecord)
      modifies this
      ensures data == old(data)[k := Payments(PaymentsIn(old(data), k) + [p])]
    {
      data := data[k := Payments(PaymentsIn(data, k) + [p])];
    }

    /** SMEMBERS: the members at `k`, each once, in an order the store picks. */
    method SetMembers(k: Key) returns (ms: seq<string>)
      ensures |ms| == |SetIn(data, k)|
      ensures forall i, j :: 0 <= i < j < |ms| ==> ms[i] != ms[j]
      ensures forall x :: x in SetIn(data, k) <==> x in ms
    {
      ms := [];
      var rest := SetIn(data, k);
      while rest != {}
        invariant rest <= SetIn(data, k)
        invariant forall x :: x in SetIn(data, k) <==> x in rest || x in ms
        invariant forall x :: x in rest ==> x !in ms
        invariant forall i, j :: 0 <= i < j < |ms| ==> ms[i] != ms[j]
        invariant |ms| + |rest| == |SetIn(data, k)|
        decreases rest
      {
        var x :| x in rest;
        ms := ms + [x];
        rest := rest - {x};
      }
    }
  }
}
