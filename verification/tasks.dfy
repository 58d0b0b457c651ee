/** Task admission: the validator behind the "add task" button and the record it produces. */
module Tasks {
  import opened Wrappers
  import Text

  /** The eight bar colours the colour box offers. */
  datatype Colour = Blue | Green | Red | Orange | Purple | Yellow | Cyan | Magenta

  /** The colour box's Persian names and the plotting colour each one stands for. */
  const Palette: map<string, Colour> := map[
    "آبی" := Blue,
    "سبز" := Green,
    "قرمز" := Red,
    "نارنجی" := Orange,
    "بنفش" := Purple,
    "زرد" := Yellow,
    "فیروزه\U{200C}ای" := Cyan,
    "ارغوانی" := Magenta
  ]

  /** One stored task. Dates are Gregorian day ordinals; `duration` counts both end days. */
  datatype Task = Task(name: string, start: int, end: int, colour: Colour, duration: int)

  /** The raw contents of the input row: name, start and end date text, colour box text. */
  datatype Form = Form(name: string, start: string, end: string, colour: string)

  /** Why an add was refused, one per check, in the order the checks run. */
  datatype AddError = EmptyName | InvalidStart | InvalidEnd | EndBeforeStart | UnknownColour

  /** Jalali "YYYY-MM-DD" text to a Gregorian day ordinal, `None` when the calendar library
      rejects the text (format, month or day out of range). */
  type Parser = string -> Option<int>

  /** What every stored task satisfies: a stripped, non-empty name, an end no earlier than
      the start, and an inclusive day count. */
  ghost predicate WellFormed(t: Task) {
    && t.name != []
    && Text.Strip(t.name) == t.name
    && t.start <= t.end
    && t.duration == t.end - t.start + 1
  }

  ghost predicate AllWellFormed(ts: seq<Task>) {
    forall t :: t in ts ==> WellFormed(t)
  }

  /** Runs the add-task checks in their fixed order and builds the record. Each error is
      reported exactly when its own check fails and every earlier check has passed; an
      accepted task is well formed and carries the parsed dates and the palette colour. */
  function Admit(f: Form, parse: Parser): (r: Result<Task, AddError>)
    ensures r == Err(EmptyName) <==> Text.AllSpace(f.name)
    ensures r == Err(InvalidStart) <==>
              !Text.AllSpace(f.name) && parse(Text.Strip(f.start)).None?
    ensures r == Err(InvalidEnd) <==>
              && !Text.AllSpace(f.name) && parse(Text.Strip(f.start)).Some?
              && parse(Text.Strip(f.end)).None?
    ensures r == Err(EndBeforeStart) <==>
              && !Text.AllSpace(f.name)
              && parse(Text.Strip(f.start)).Some? && parse(Text.Strip(f.end)).Some?
              && parse(Text.Strip(f.end)).value < parse(Text.Strip(f.start)).value
    ensures r.Ok? ==>
              && WellFormed(r.value)
              && r.value.duration >= 1
              && r.value.name == Text.Strip(f.name)
              && parse(Text.Strip(f.start)) == Some(r.value.start)
              && parse(Text.Strip(f.end)) == Some(r.value.end)
              && f.colour in Palette && r.value.colour == Palette[f.colour]
  {
    Text.StripEmptyIff(f.name);
    Text.StripIdempotent(f.name);
    Check(Text.Strip(f.name), parse(Text.Strip(f.start)), parse(Text.Strip(f.end)), f.colour)
  }

  /** The checks after the fields have been stripped and the dates parsed. */
  function Check(name: string, start: Option<int>, end: Option<int>, colour: string): Result<Task, AddError> {
    if name == [] then Err(EmptyName)
    else if start.None? then Err(InvalidStart)
    else if end.None? then Err(InvalidEnd)
    else if end.value < start.value then Err(EndBeforeStart)
    else
      var duration := end.value - start.value + 1;
      if colour !in Palette then Err(UnknownColour)
      else Ok(Task(name, start.value, end.value, Palette[colour], duration))
  }

  /** An add succeeds exactly when the name has a non-whitespace character, both dates parse,
      the end is not before the start and the colour is one of the palette's names. */
  lemma AdmitOkIff(f: Form, parse: Parser)
    ensures Admit(f, parse).Ok? <==>
              && !Text.AllSpace(f.name)
              && parse(Text.Strip(f.start)).Some? && parse(Text.Strip(f.end)).Some?
              && parse(Text.Strip(f.start)).value <= parse(Text.Strip(f.end)).value
              && f.colour in Palette
  {
    Text.StripEmptyIff(f.name);
  }

  /** A same-day task is accepted and lasts exactly one day. */
  lemma SameDayTask(f: Form, parse: Parser, day: int)
    requires !Text.AllSpace(f.name) && f.colour in Palette
    requires parse(Text.Strip(f.start)) == Some(day) && parse(Text.Strip(f.end)) == Some(day)
    ensures Admit(f, parse).Ok?
    ensures Admit(f, parse).value.start == Admit(f, parse).value.end == day
    ensures Admit(f, parse).value.duration == 1
  {
    AdmitOkIff(f, parse);
  }

  /** Surrounding whitespace in the name and the date fields never changes the outcome,
      because all three are stripped before use. */
  lemma AdmitIgnoresPadding(f: Form, parse: Parser)
    ensures Admit(Form(Text.Strip(f.name), Text.Strip(f.start), Text.Strip(f.end), f.colour), parse)
            == Admit(f, parse)
  {
    var g := Form(Text.Strip(f.name), Text.Strip(f.start), Text.Strip(f.end), f.colour);
    Text.StripIdempotent(f.name);
    Text.StripIdempotent(f.start);
    Text.StripIdempotent(f.end);
  }

  /** The palette has eight names and no two of them mean the same colour. */
  lemma PaletteIsOneToOne()
    ensures |Palette| == 8
    ensures forall a, b :: a in Palette && b in Palette && Palette[a] == Palette[b] ==> a == b
  {
  }
}
