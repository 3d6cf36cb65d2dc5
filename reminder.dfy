/** The monthly reminder (Services/MonthlyReminderService.cs): a timer armed
    for the first day of the next month, and a broadcast of the balance and
    the payment history that never touches the store. */
module Reminder {
  import opened Text
  import opened Keys
  import opened Models
  import opened Store
  import opened Outbox
  import opened Ipoteka

  // ---------------------------------------------------------------------------
  // DateTime arithmetic

  /** C#'s integer division, which truncates toward zero. */
  function TruncDiv(a: int, b: int): (r: int)
    requires b > 0
  {
    if a >= 0 then a / b else -((-a) / b)
  }

  /** C#'s remainder, which takes the sign of the dividend. */
  function TruncMod(a: int, b: int): (r: int)
    requires b > 0
  {
    a - b * TruncDiv(a, b)
  }

  /** `DateTime.AddMonths(months)`: moves the month, keeps the time of day,
      clamps the day to the length of the new month, and fails outside the
      years 1 to 9999 or beyond 120000 months. */
  function AddMonths(d: DateTime, months: int): (r: Option<DateTime>)
    requires ValidDateTime(d)
    ensures r.Some? ==> ValidDateTime(r.value)
  {
    if months < -120000 || months > 120000 then None
    else
      var i := d.month - 1 + months;
      var y := if i >= 0 then d.year + TruncDiv(i, 12) else d.year + TruncDiv(i - 11, 12);
      var m := if i >= 0 then TruncMod(i, 12) + 1 else 12 + TruncMod(i + 1, 12);
      if y < 1 || y > 9999 then None
      else
        var days := DaysInMonth(y, m);
        Some(DateTime(y, m, if d.day > days then days else d.day, d.tickOfDay))
  }

  /** `new DateTime(now.Year, now.Month, 1)`. */
  function FirstOfMonth(now: DateTime): (r: DateTime)
    requires ValidDateTime(now)
    ensures ValidDateTime(r)
  {
    DateTime(now.year, now.month, 1, 0)
  }

  /** The first moment of the month after `now`'s, if DateTime can hold it. */
  function NextMonthStart(now: DateTime): (r: Option<DateTime>)
    requires ValidDateTime(now)
  {
    AddMonths(FirstOfMonth(now), 1)
  }

  /** The next month starts on its first day at midnight; December rolls over
      to January of the next year, and only December 9999 has no successor. */
  lemma NextMonthShape(now: DateTime)
    requires ValidDateTime(now)
    ensures NextMonthStart(now).None? <==> now.year == 9999 && now.month == 12
    ensures NextMonthStart(now).Some? ==>
      NextMonthStart(now).value ==
        if now.month == 12 then DateTime(now.year + 1, 1, 1, 0) else DateTime(now.year, now.month + 1, 1, 0)
  {
  }

  function DaysBeforeYear(y: int): (r: int)
  {
    365 * (y - 1) + (y - 1) / 4 - (y - 1) / 100 + (y - 1) / 400
  }

  function DaysBeforeMonth(y: int, m: int): (r: int)
    requires 1 <= m <= 12
  {
    if m == 1 then 0 else DaysBeforeMonth(y, m - 1) + DaysInMonth(y, m - 1)
  }

  /** `DateTime.Ticks`: 100-nanosecond intervals since 0001-01-01 00:00. */
  function Ticks(d: DateTime): (r: int)
    requires 1 <= d.month <= 12
  {
    (DaysBeforeYear(d.year) + DaysBeforeMonth(d.year, d.month) + d.day - 1) * TicksPerDay + d.tickOfDay
  }

  /** A year has 366 days exactly when it is a leap year. */
  lemma YearLength(y: int)
    requires y >= 1
    ensures DaysBeforeYear(y + 1) - DaysBeforeYear(y) == if IsLeapYear(y) then 366 else 365
  {
    DivStep(y, 4);
    DivStep(y, 100);
    DivStep(y, 400);
    ModChain(y);
  }

  /** A multiple of 400 is one of 100, and a multiple of 100 is one of 4. */
  lemma ModChain(y: int)
    ensures y % 400 == 0 ==> y % 100 == 0
    ensures y % 100 == 0 ==> y % 4 == 0
  {
    if y % 400 == 0 {
      MultipleOf100(4 * (y / 400));
    }
    if y % 100 == 0 {
      MultipleOf4(25 * (y / 100));
    }
  }

  lemma MultipleOf100(q: int)
    ensures (100 * q) % 100 == 0
  {
  }

  lemma MultipleOf4(q: int)
    ensures (4 * q) % 4 == 0
  {
  }

  /** Dividing one more gains a quotient step exactly at a multiple. */
  lemma DivStep(y: int, k: int)
    requires y >= 1 && (k == 4 || k == 100 || k == 400)
    ensures y / k - (y - 1) / k == if y % k == 0 then 1 else 0
  {
    if k == 4 {
      assert y / 4 - (y - 1) / 4 == if y % 4 == 0 then 1 else 0;
    } else if k == 100 {
      assert y / 100 - (y - 1) / 100 == if y % 100 == 0 then 1 else 0;
    } else {
      assert y / 400 - (y - 1) / 400 == if y % 400 == 0 then 1 else 0;
    }
  }

  /** The days before December plus December's 31 make up the year. */
  lemma DecemberEndsYear(y: int)
    requires y >= 1
    ensures DaysBeforeMonth(y, 12) + 31 == DaysBeforeYear(y + 1) - DaysBeforeYear(y)
  {
    YearLength(y);
    var leap := if IsLeapYear(y) then 1 else 0;
    assert DaysBeforeMonth(y, 2) == 31;
    assert DaysBeforeMonth(y, 3) == 59 + leap;
    assert DaysBeforeMonth(y, 4) == 90 + leap;
    assert DaysBeforeMonth(y, 5) == 120 + leap;
    assert DaysBeforeMonth(y, 6) == 151 + leap;
    assert DaysBeforeMonth(y, 7) == 181 + leap;
    assert DaysBeforeMonth(y, 8) == 212 + leap;
    assert DaysBeforeMonth(y, 9) == 243 + leap;
    assert DaysBeforeMonth(y, 10) == 273 + leap;
    assert DaysBeforeMonth(y, 11) == 304 + leap;
    assert DaysBeforeMonth(y, 12) == 334 + leap;
  }

  /** The timer's first delay, `nextDate - now`, is positive and at most a
      month of 31 days. */
  lemma DelayPositive(now: DateTime)
    requires ValidDateTime(now) && NextMonthStart(now).Some?
    ensures 0 < Ticks(NextMonthStart(now).value) - Ticks(now) <= 31 * TicksPerDay
  {
    NextMonthShape(now);
    var next := NextMonthStart(now).value;
    if now.month == 12 {
      DecemberEndsYear(now.year);
    }
    assert Ticks(next) == (DaysBeforeYear(now.year) + DaysBeforeMonth(now.year, now.month)
                           + DaysInMonth(now.year, now.month)) * TicksPerDay;
  }

  // ---------------------------------------------------------------------------
  // The reminder message

  /** The payment list of the reminder: every record, in stored order. */
  function PaymentLines(h: seq<PaymentRecord>): (lines: seq<PaymentLine>)
    ensures |lines| == |h|
  {
    seq(|h|, i requires 0 <= i < |h| => PaymentLine(h[i].Date, h[i].Amount))
  }

  function ReminderOf(h: seq<PaymentRecord>): (r: ReminderHistory)
  {
    if h == [] then NoPayments else LastPayments(PaymentLines(h))
  }

  /** The monthly message for a stored credit and history. */
  function MonthlyMessage(c: CreditData, h: seq<PaymentRecord>): (r: Reply)
  {
    MonthlyUpdate(c.CurrentAmount, ReminderOf(h))
  }

  /** After `/set a` and the payments `ps`, the reminder reports the balance
      a - (p1 + ... + pn) and lists the payments in the order they were made. */
  lemma ReminderAfterPayments(amount: real, setAt: DateTime, ps: seq<PayCommand>)
    ensures var l := Replay(amount, setAt, ps);
      var msg := MonthlyMessage(l.credit, l.history);
      && msg.balance == amount - Sum(PaidAmounts(ps))
      && (msg.history.NoPayments? <==> ps == [])
      && (ps != [] ==>
            |msg.history.lines| == |ps| && forall i :: 0 <= i < |ps| ==> msg.history.lines[i].amount == ps[i].payment)
  {
    ReplayStatement(amount, setAt, ps);
  }

  /** Every authorised chat that parses as an id is sent the reminder, failed
      sends included, and nothing is sent anywhere else. */
  lemma ReminderReachesAll(listed: seq<string>, chats: set<string>, reply: Reply, fails: int -> bool, id: int)
    requires forall x :: x in listed <==> x in chats
    ensures Message(id, reply, !fails(id)) in Broadcast(listed, reply, fails)
        <==> exists x :: x in chats && ParseLong(x) == Some(id)
  {
    BroadcastReaches(listed, reply, fails, id);
    if exists x :: x in chats && ParseLong(x) == Some(id) {
      var x :| x in chats && ParseLong(x) == Some(id);
      assert x in listed;
      var i :| 0 <= i < |listed| && listed[i] == x;
    }
  }

  // ---------------------------------------------------------------------------
  // The service

  /** The `System.Threading.Timer` `Start` arms: first delay and period, in ticks. */
  datatype Timer = Timer(dueTicks: int, periodTicks: int)

  class MonthlyReminderService {
    const bot: Bot
    const redis: Redis
    var timer: Option<Timer>

    constructor (bot: Bot, redis: Redis)
      ensures this.bot == bot && this.redis == redis && timer == None
    {
      this.bot, this.redis := bot, redis;
      timer := None;
    }

    /** Arms the timer for the first day of the next month, repeating every
        30 days; `AddMonths` throws for December 9999 and no timer is armed. */
    method Start(now: DateTime) returns (started: bool)
      requires ValidDateTime(now)
      modifies this
      ensures started <==> NextMonthStart(now).Some?
      ensures started ==> timer == Some(Timer(Ticks(NextMonthStart(now).value) - Ticks(now), 30 * TicksPerDay))
                          && timer.value.dueTicks > 0
      ensures !started ==> timer == old(timer)
    {
      var next := NextMonthStart(now);
      if next.None? {
        return false;
      }
      DelayPositive(now);
      timer := Some(Timer(Ticks(next.value) - Ticks(now), 30 * TicksPerDay));
      return true;
    }

    /** One firing of the timer: with a credit stored, every authorised chat
        that parses as an id is sent the balance and the history; failed sends
        are skipped over and the store is left as it was. */
    method SendMonthlyReminders() returns (listed: seq<string>)
      modifies bot
      ensures CreditIn(redis.data).None? ==> listed == [] && bot.log == old(bot.log)
      ensures CreditIn(redis.data).Some? ==>
        && Listing(listed, SetIn(redis.data, AuthChats))
        && bot.log == old(bot.log)
             + Broadcast(listed, MonthlyMessage(CreditIn(redis.data).value, PaymentsIn(redis.data, History)), bot.SendFails)
    {
      listed := [];
      var credit := CreditIn(redis.data);
      if credit.None? {
        return;
      }
      var history := PaymentsIn(redis.data, History);
      var message := MonthlyMessage(credit.value, history);
      listed := redis.SetMembers(AuthChats);
      ghost var log0 := bot.log;
      for i := 0 to |listed|
        invariant bot.log == log0 + Broadcast(listed[..i], message, bot.SendFails)
      {
        BroadcastStep(listed, i, message, bot.SendFails);
        var id := ParseLong(listed[i]);
        if id.Some? {
          var _ := bot.Send(id.value, message);
        }
      }
      assert listed[..|listed|] == listed;
    }
  }
}
