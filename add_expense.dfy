/**
 * The "Add Expense" dialog: a form whose values are checked against a schema
 * (a positive amount of at most 99999999, a non-empty category, a note of at
 * most 200 characters) before an insert request is sent, and which resets and
 * closes only when the insert succeeds.
 */
module AddExpense {
  import opened Records

  const MaxAmount: real := 99999999.0
  const MaxNoteLength: nat := 200

  /**
   * The form's values. `amount` is the amount field after coercion to a
   * number: `None` only while the field is untouched (undefined coerces to
   * NaN). A number input hands over a cleared or non-numeric field as the
   * empty string, which coerces to `Some(0.0)`.
   */
  datatype FormValues = FormValues(amount: Option<real>, category: string, date: Day, note: Option<string>)

  /** The insert request the dialog sends. */
  datatype NewExpense = NewExpense(amount: real, category: string, date: Day, note: Option<string>)

  /** The schema's messages, in field order. */
  datatype FieldError = NotANumber | NotPositive | TooLarge | NoCategory | NoteTooLong

  /** What the schema accepts. */
  predicate Valid(v: FormValues)
  {
    && v.amount.Some? && 0.0 < v.amount.value <= MaxAmount
    && |v.category| >= 1
    && (v.note.None? || |v.note.value| <= MaxNoteLength)
  }

  /**
   * The schema's verdict: one message per failed rule. A value that is not a
   * number gets only the type message; a number gets the message of the
   * bound it breaks.
   */
  function Errors(v: FormValues): (es: seq<FieldError>)
    ensures es == [] <==> Valid(v)
    ensures NotANumber in es <==> v.amount.None?
    ensures NotPositive in es <==> v.amount.Some? && v.amount.value <= 0.0
    ensures TooLarge in es <==> v.amount.Some? && v.amount.value > MaxAmount
    ensures NoCategory in es <==> v.category == ""
    ensures NoteTooLong in es <==> v.note.Some? && |v.note.value| > MaxNoteLength
    ensures |es| <= 3
  {
    var amountErrors :=
      match v.amount
      case None => [NotANumber]
      case Some(n) => (if n <= 0.0 then [NotPositive] else []) + (if n > MaxAmount then [TooLarge] else []);
    var categoryErrors := if |v.category| < 1 then [NoCategory] else [];
    var noteErrors := if v.note.Some? && |v.note.value| > MaxNoteLength then [NoteTooLong] else [];
    amountErrors + categoryErrors + noteErrors
  }

  /** What the form starts with, and what it is reset to after an insert. */
  function Defaults(today: Day): (v: FormValues)
    ensures v.date == today
    ensures !Valid(v) && Errors(v) == [NotANumber, NoCategory]
  {
    FormValues(None, "", today, Some(""))
  }

  /**
   * The request built from accepted values: the amount, category and date as
   * entered, and the note only when it is not empty (`note || undefined`).
   */
  function ToPayload(v: FormValues): (p: NewExpense)
    requires Valid(v)
    ensures 0.0 < p.amount <= MaxAmount && p.amount == v.amount.value
    ensures p.category == v.category && p.category != ""
    ensures p.date == v.date
    ensures p.note.None? <==> v.note.None? || v.note == Some("")
    ensures p.note.Some? ==> p.note == v.note && 0 < |p.note.value| <= MaxNoteLength
  {
    NewExpense(v.amount.value, v.category, v.date,
               if v.note == Some("") then None else v.note)
  }

  /** The date picker offers no day after today. */
  predicate Selectable(d: Day, today: Day)
  {
    d <= today
  }

  class Dialog {
    var open: bool
    var values: FormValues

    /** Closed, with the default values dated today. */
    constructor (today: Day)
      ensures !open && values == Defaults(today)
    {
      open := false;
      values := Defaults(today);
    }

    /**
     * The effect run when the `defaultDate` prop changes: a day clicked in
     * the calendar becomes the form's date and opens the dialog, and the
     * parent is told the date was used. Without a date nothing happens.
     */
    method ApplyDefaultDate(defaultDate: Option<Day>) returns (dateUsed: bool)
      modifies this
      ensures dateUsed <==> defaultDate.Some?
      ensures defaultDate.Some? ==> open && values == old(values).(date := defaultDate.value)
      ensures defaultDate.None? ==> open == old(open) && values == old(values)
    {
      dateUsed := false;
      if defaultDate.Some? {
        values := values.(date := defaultDate.value);
        open := true;
        dateUsed := true;
      }
    }

    /** The dialog's open state follows the trigger and the close button. */
    method SetOpen(b: bool)
      modifies this
      ensures open == b && values == old(values)
    {
      open := b;
    }

    /** A click on a day in the picker: days after today are disabled. */
    method PickDate(d: Day, today: Day)
      modifies this
      ensures open == old(open)
      ensures values == if Selectable(d, today) then old(values).(date := d) else old(values)
    {
      if Selectable(d, today) {
        values := values.(date := d);
      }
    }

    /**
     * Submitting the form. Rejected values send nothing and change nothing.
     * Accepted values send their payload; when the insert succeeds the form
     * is reset to the defaults dated today and the dialog closes, and when it
     * fails the dialog stays as it was.
     */
    method Submit(today: Day, insertSucceeds: bool) returns (request: Option<NewExpense>)
      modifies this
      ensures request.Some? <==> Valid(old(values))
      ensures request.Some? ==> request.value == ToPayload(old(values))
      ensures request.Some? && insertSucceeds ==> !open && values == Defaults(today)
      ensures request.None? || !insertSucceeds ==> open == old(open) && values == old(values)
    {
      if Errors(values) != [] {
        return None;
      }
      request := Some(ToPayload(values));
      if insertSucceeds {
        values := Defaults(today);
        open := false;
      }
    }
  }
}
