/**
 * The state of the home screen and the handlers that change it: the amount
 * and description inputs, the Income/Expense selector, the date being
 * viewed and the records listed for it. Each asynchronous database call is
 * taken as completed within the handler that issues it; whether a read
 * fails is an input.
 */
module HomeScreen {
  import opened Wrappers
  import opened Decimal
  import opened Records
  import opened Totals
  import opened Calendar
  import opened Store

  class Screen {
    var records: seq<Record>
    var amount: string
    var description: string
    var recordType: string
    var currentDate: string
    /** The calendar date `currentDate` is the key of. */
    ghost var day: Date

    /**
     * What every handler keeps: the amount input holds digits only, the
     * selected type is one of the two buttons' values, and the date key is
     * the formatted key of an existing date.
     */
    ghost predicate Valid()
      reads this
    {
      AllDigits(amount) &&
      (recordType == Income || recordType == Expense) &&
      ValidDate(day) && currentDate == Format(day)
    }

    /** The initial state: empty inputs, "Income" selected, no records, today's key. */
    constructor (today: Date)
      requires ValidDate(today)
      ensures Valid()
      ensures records == [] && amount == "" && description == "" && recordType == Income
      ensures day == today && currentDate == Format(today)
    {
      records := [];
      amount := "";
      description := "";
      recordType := Income;
      day := today;
      currentDate := Format(today);
    }

    /** The amount field accepts an edit only when it consists of digits. */
    method OnAmountChange(text: string)
      requires Valid()
      modifies this
      ensures Valid()
      ensures amount == if AllDigits(text) then text else old(amount)
      ensures records == old(records) && description == old(description)
      ensures recordType == old(recordType) && currentDate == old(currentDate) && day == old(day)
    {
      if AllDigits(text) {
        amount := text;
      }
    }

    /** The description field accepts every edit. */
    method OnDescriptionChange(text: string)
      requires Valid()
      modifies this
      ensures Valid()
      ensures description == text
      ensures records == old(records) && amount == old(amount)
      ensures recordType == old(recordType) && currentDate == old(currentDate) && day == old(day)
    {
      description := text;
    }

    /** The two type buttons. */
    method SelectType(income: bool)
      requires Valid()
      modifies this
      ensures Valid()
      ensures recordType == if income then Income else Expense
      ensures records == old(records) && amount == old(amount) && description == old(description)
      ensures currentDate == old(currentDate) && day == old(day)
    {
      if income {
        recordType := Income;
      } else {
        recordType := Expense;
      }
    }

    /**
     * `addRecord`: with both inputs filled in, list the new record, save it
     * under the signed-in user and the current date key, and clear the
     * inputs; otherwise do nothing.
     */
    method AddRecord(uid: Option<string>, store: RecordStore)
      requires Valid()
      modifies this, store
      ensures Valid()
      ensures old(amount) == [] || old(description) == [] ==>
                records == old(records) && amount == old(amount) && description == old(description) &&
                recordType == old(recordType) && currentDate == old(currentDate) && day == old(day) &&
                store.buckets == old(store.buckets)
      ensures old(amount) != [] && old(description) != [] ==>
                var added := Record(old(recordType), old(amount), old(description));
                records == old(records) + [added] && amount == "" && description == "" &&
                recordType == old(recordType) && currentDate == old(currentDate) && day == old(day) &&
                store.buckets ==
                  if uid.None? then old(store.buckets)
                  else
                    var key := BucketKey(uid.value, old(currentDate));
                    old(store.buckets)[key := SavedBucket(Lookup(old(store.buckets), key), added)]
    {
      if amount != [] && description != [] {
        var newRecord := Record(recordType, amount, description);
        records := records + [newRecord];
        store.Save(uid, currentDate, newRecord);
        amount := "";
        description := "";
      }
    }

    /**
     * `changeDate(offset)`: read the key back, step `offset` days, store the
     * new key and, with a signed-in user, list that day's records (none when
     * the read fails). The Previous/Next Day buttons pass -1 and 1.
     */
    method ChangeDate(offset: int, uid: Option<string>, store: RecordStore, readFails: bool)
      requires Valid() && Ordinal(day) + offset >= 0
      modifies this
      ensures Valid()
      ensures day == AddDays(old(day), offset) && currentDate == Format(day)
      ensures records ==
                if uid.None? then old(records)
                else if readFails then []
                else LoadRecords(store.Fetch(uid.value, currentDate))
      ensures amount == old(amount) && description == old(description) && recordType == old(recordType)
    {
      ParseFormat(day);
      var shown := Parse(currentDate).value;
      var next := AddDays(shown, offset);
      currentDate := Format(next);
      day := next;
      if uid.Some? {
        records := LoadDay(uid.value, currentDate, store, readFails);
      }
    }

    /** The first load, once the signed-in user's document has been read. */
    method LoadInitial(uid: string, store: RecordStore, readFails: bool)
      requires Valid()
      modifies this
      ensures Valid()
      ensures records == if readFails then [] else LoadRecords(store.Fetch(uid, currentDate))
      ensures amount == old(amount) && description == old(description) && recordType == old(recordType)
      ensures currentDate == old(currentDate) && day == old(day)
    {
      records := LoadDay(uid, currentDate, store, readFails);
    }
  }

  /** `loadRecords(uid, date, …)` as its callback receives it: a failed read gives the empty list. */
  method LoadDay(uid: string, date: string, store: RecordStore, readFails: bool) returns (rs: seq<Record>)
    ensures readFails ==> rs == []
    ensures !readFails ==> rs == LoadRecords(store.Fetch(uid, date))
    ensures !readFails ==>
              var key := BucketKey(uid, date);
              rs == if key in store.buckets then store.buckets[key] else []
  {
    var snapshot := if readFails then Failed else store.Fetch(uid, date);
    LoadSnapshot(store.buckets, BucketKey(uid, date));
    rs := LoadRecords(snapshot);
  }

  /**
   * What adding a record does to the totals line: an amount of one to nine
   * digits is added, in `Int` arithmetic, to the income or to the expense
   * according to the selected type, and the profit follows.
   */
  lemma AddedRecordTotals(rs: seq<Record>, kind: string, amount: string, description: string)
    requires kind == Income || kind == Expense
    requires 1 <= |amount| <= 9 && AllDigits(amount)
    requires DailyTotals(rs).Computed?
    ensures var t, v := DailyTotals(rs), ValueOf(amount);
            IsInt(t.income) && IsInt(t.expense) && IsInt(v) &&
            DailyTotals(rs + [Record(kind, amount, description)]) ==
              if kind == Income then Computed(Add32(t.income, v), t.expense, Sub32(Add32(t.income, v), t.expense))
              else Computed(t.income, Add32(t.expense, v), Sub32(t.income, Add32(t.expense, v)))
  {
    ShortDigitStringParses(amount);
    var r := Record(kind, amount, description);
    var t, v := DailyTotals(rs), ValueOf(amount);
    if kind == Income {
      AppendIncomeTotals(rs, t, r, v);
    } else {
      AppendExpenseTotals(rs, t, r, v);
    }
  }
}
