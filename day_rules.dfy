/** The business rules of the service form (App.tsx): which service-day tag a date gets,
    which roles each tag requires or suppresses, what a change of tag does to the role
    fields, and how a validated form becomes a stored report. */
module DayRules {
  import opened Types
  import Text

  /** The form's state hooks. An empty field ('' in the form) is `None`. */
  datatype Form = Form(
    date: Option<int>,
    dayOfWeek: Option<Day>,
    portao: Option<Worker>,
    louvor: Option<Worker>,
    palavra: Option<Worker>,
    textoBiblico: string)

  /** The role field of the form that holds `task`. */
  function Slot(f: Form, task: Task): Option<Worker> {
    match task
    case Portao => f.portao
    case Louvor => f.louvor
    case Palavra => f.palavra
  }

  // ---------------------------------------------------------------------------
  // Weekday -> service-day tag

  /** `getDay()` of local midnight of day number `d`; day 0 (1970-01-01) was a Thursday. */
  function Weekday(d: int): (w: nat)
    ensures w < 7
  {
    (d + 4) % 7
  }

  /** The weekday each tag belongs to: EBD (morning study) and DOM (evening) are both Sunday. */
  function DayIndex(s: Day): nat {
    match s
    case EBD => 0
    case DOM => 0
    case SEG => 1
    case TER => 2
    case QUA => 3
    case QUI => 4
    case SAB => 6
  }

  /** The weekday-to-tag table; Friday (5) has no service and Sunday (0) is chosen by the user. */
  function ServiceOn(w: nat): Option<Day> {
    if w == 1 then Some(SEG)
    else if w == 2 then Some(TER)
    else if w == 3 then Some(QUA)
    else if w == 4 then Some(QUI)
    else if w == 6 then Some(SAB)
    else None
  }

  /** `calculateDayOfWeek`: the tag the form shows after the date is set to `date` while the
      current tag is `current`. An empty date changes nothing; on a Sunday a choice of EBD
      or DOM is kept and anything else is cleared; on every other day the tag is the one of
      that weekday, or none on Friday. */
  function ResolveDay(date: Option<int>, current: Option<Day>): (r: Option<Day>)
    ensures date.None? ==> r == current
    ensures date.Some? && r.Some? ==> DayIndex(r.value) == Weekday(date.value)
    ensures date.Some? && Weekday(date.value) != 0 ==> (r.Some? <==> Weekday(date.value) != 5)
    ensures date.Some? && Weekday(date.value) == 0 ==>
      r == (if current == Some(EBD) || current == Some(DOM) then current else None)
  {
    match date
    case None => current
    case Some(d) =>
      var w := Weekday(d);
      if w == 0 then
        if current != Some(EBD) && current != Some(DOM) then None else current
      else
        ServiceOn(w)
  }

  /** Resolving again for the same date keeps the tag: a user's Sunday choice survives. */
  lemma ResolveDayIdempotent(date: Option<int>, current: Option<Day>)
    ensures ResolveDay(date, ResolveDay(date, current)) == ResolveDay(date, current)
  {
  }

  /** Off Sunday the resolved tag depends only on the weekday, never on the current tag,
      and dates a week apart resolve alike. */
  lemma ResolveDayByWeekday(d: int, c1: Option<Day>, c2: Option<Day>)
    requires Weekday(d) != 0
    ensures ResolveDay(Some(d), c1) == ResolveDay(Some(d), c2) == ResolveDay(Some(d + 7), c1)
  {
    assert Weekday(d + 7) == Weekday(d);
  }

  /** A tag that belongs to the date's weekday is what resolving that date gives back. */
  lemma ResolveKeepsConsistentTag(d: int, s: Day)
    ensures DayIndex(s) == Weekday(d) ==> ResolveDay(Some(d), Some(s)) == Some(s)
  {
  }

  // ---------------------------------------------------------------------------
  // Role requirements per tag

  datatype Need = Required | Suppressed

  /** SEG has no sermon; QUA (led by the women's group) has neither worship nor sermon;
      every other tag, and an unset tag, requires all three roles. */
  function Requirement(day: Option<Day>, task: Task): (n: Need)
    ensures task == Portao ==> n == Required
    ensures n == Suppressed <==> (day == Some(QUA) && task != Portao) || (day == Some(SEG) && task == Palavra)
  {
    match task
    case Portao => Required
    case Louvor => if day == Some(QUA) then Suppressed else Required
    case Palavra => if day == Some(SEG) || day == Some(QUA) then Suppressed else Required
  }

  /** The worship and sermon fields agree with the tag: a suppressed role is empty or holds
      the sentinel, and a required one never holds the sentinel. */
  ghost predicate RolesConform(f: Form) {
    forall task :: task != Portao ==>
      && (Requirement(f.dayOfWeek, task) == Suppressed ==> Slot(f, task) in {None, Some(NaoHouve)})
      && (Requirement(f.dayOfWeek, task) == Required ==> Slot(f, task) != Some(NaoHouve))
  }

  /** The tag belongs to the date's weekday; nothing is asked while either field is empty. */
  predicate TagFits(date: Option<int>, day: Option<Day>) {
    date.Some? && day.Some? ==> DayIndex(day.value) == Weekday(date.value)
  }

  /** The form invariant: the tag belongs to the date, the gate is never the sentinel and the
      other roles agree with the tag. */
  ghost predicate Conforms(f: Form) {
    TagFits(f.date, f.dayOfWeek) && f.portao != Some(NaoHouve) && RolesConform(f)
  }

  // ---------------------------------------------------------------------------
  // The day-change effect

  /** The effect that runs when the form's tag becomes `newDay`. Entering SEG forces the
      sermon to the sentinel and clears a worship sentinel; entering QUA forces both to the
      sentinel and fills an empty or default scripture text with the women's-service phrase;
      any tag but these two clears sentinels and that phrase. The gate and the date are never touched. */
  function ApplyDayChange(f: Form, newDay: Option<Day>): (r: Form)
    ensures r.dayOfWeek == newDay && r.date == f.date && r.portao == f.portao
    // Afterwards the roles agree with the new tag whatever they held before ...
    ensures RolesConform(r)
    ensures forall task :: task != Portao ==>
      (Slot(r, task) == Some(NaoHouve) <==> Requirement(newDay, task) == Suppressed)
    // ... and a required role keeps its worker: only a sentinel is cleared.
    ensures forall task :: task != Portao && Requirement(newDay, task) == Required ==>
      Slot(r, task) == (if Slot(f, task) == Some(NaoHouve) then None else Slot(f, task))
    // The scripture text: filled on QUA, kept on SEG, the women's-service phrase cleared elsewhere.
    ensures newDay == Some(QUA) ==>
      r.textoBiblico == (if f.textoBiblico in {"", NotInformed} then WomensService else f.textoBiblico)
    ensures newDay == Some(SEG) ==> r.textoBiblico == f.textoBiblico
    ensures newDay !in {Some(SEG), Some(QUA)} ==>
      r.textoBiblico == (if f.textoBiblico == WomensService then "" else f.textoBiblico)
  {
    var g := f.(dayOfWeek := newDay);
    if newDay == Some(SEG) then
      g.(palavra := Some(NaoHouve),
         louvor := if f.louvor == Some(NaoHouve) then None else f.louvor)
    else if newDay == Some(QUA) then
      g.(palavra := Some(NaoHouve),
         louvor := Some(NaoHouve),
         textoBiblico :=
           if f.textoBiblico == "" || f.textoBiblico == NotInformed then WomensService
           else f.textoBiblico)
    else
      g.(palavra := if f.palavra == Some(NaoHouve) then None else f.palavra,
         louvor := if f.louvor == Some(NaoHouve) then None else f.louvor,
         textoBiblico := if f.textoBiblico == WomensService then "" else f.textoBiblico)
  }

  /** Running the effect twice for the same tag is the same as running it once. */
  lemma ApplyDayChangeIdempotent(f: Form, newDay: Option<Day>)
    ensures ApplyDayChange(ApplyDayChange(f, newDay), newDay) == ApplyDayChange(f, newDay)
  {
  }

  /** The effects that follow a batch of field updates from the committed form `prev` to
      `cur`. In that render the date effect re-resolves the tag when the date changed, and the
      day effect runs for `cur`'s tag when the tag changed; when the date effect set a new tag,
      the next render runs the day effect once more for that tag. Nothing runs for a field
      that did not change. */
  function Settle(prev: Form, cur: Form): (r: Form)
    ensures r.date == cur.date && r.portao == cur.portao
    ensures r.dayOfWeek == if cur.date != prev.date then ResolveDay(cur.date, cur.dayOfWeek) else cur.dayOfWeek
    ensures RolesConform(cur) ==> RolesConform(r)
    ensures r.dayOfWeek != prev.dayOfWeek ==> RolesConform(r)
    ensures cur.date == prev.date && cur.dayOfWeek == prev.dayOfWeek ==> r == cur
    // A new date always ends with a tag of its weekday; otherwise a fitting tag stays fitting.
    ensures cur.date != prev.date || TagFits(cur.date, cur.dayOfWeek) ==> TagFits(r.date, r.dayOfWeek)
    // Unless the date and the tag both moved and resolving moved the tag again, the day-change
    // effect runs once, for the final tag, and only when that tag differs from `prev`'s: a date
    // move that keeps the tag leaves roles and text alone.
    ensures cur.dayOfWeek == prev.dayOfWeek || r.dayOfWeek == cur.dayOfWeek ==>
      r == if r.dayOfWeek == prev.dayOfWeek then cur else ApplyDayChange(cur, r.dayOfWeek)
  {
    var resolved := if cur.date != prev.date then ResolveDay(cur.date, cur.dayOfWeek) else cur.dayOfWeek;
    var f1 := if cur.dayOfWeek != prev.dayOfWeek then ApplyDayChange(cur, cur.dayOfWeek) else cur;
    if resolved != cur.dayOfWeek then ApplyDayChange(f1, resolved) else f1
  }

  // ---------------------------------------------------------------------------
  // Resetting and loading the form

  /** `resetForm`: today's date, the tag resolved for it as if nothing had been chosen, and
      every other field empty; then the effects. */
  function Reset(prev: Form, today: int): (r: Form)
    ensures r.date == Some(today) && r.portao == None
    ensures r.dayOfWeek == ResolveDay(Some(today), None)
    ensures Conforms(r)
    ensures r.louvor != Some(NaoHouve) ==> r.louvor == None
    ensures r.palavra != Some(NaoHouve) ==> r.palavra == None
    // Text and roles start empty; only a move onto QUA or SEG fills the ones those tags fix.
    ensures var entered := r.dayOfWeek != prev.dayOfWeek;
      && r.textoBiblico == (if entered && r.dayOfWeek == Some(QUA) then WomensService else "")
      && r.louvor == (if entered && r.dayOfWeek == Some(QUA) then Some(NaoHouve) else None)
      && r.palavra == (if entered && r.dayOfWeek in {Some(SEG), Some(QUA)} then Some(NaoHouve) else None)
  {
    ResolveDayIdempotent(Some(today), None);
    Settle(prev, Form(Some(today), ResolveDay(Some(today), None), None, None, None, ""))
  }

  /** `startEditing`: the form takes every field of the report; then the effects. */
  function Load(prev: Form, rep: Report): (r: Form)
    ensures r.date == Some(rep.date) && r.portao == Some(rep.portao)
    ensures DayIndex(rep.dayOfWeek) == Weekday(rep.date) ==> r.dayOfWeek == Some(rep.dayOfWeek)
    ensures DayIndex(rep.dayOfWeek) == Weekday(rep.date) && ReportConforms(rep) ==>
      r.louvor == Some(rep.louvor) && r.palavra == Some(rep.palavra)
    // A form already showing the report's tag runs no effect and takes every field as stored.
    ensures DayIndex(rep.dayOfWeek) == Weekday(rep.date) && prev.dayOfWeek == Some(rep.dayOfWeek) ==>
      r == Form(Some(rep.date), Some(rep.dayOfWeek), Some(rep.portao), Some(rep.louvor), Some(rep.palavra),
                rep.textoBiblico)
    // The scripture text survives unless the tag changes and it is one the effect rewrites.
    ensures DayIndex(rep.dayOfWeek) == Weekday(rep.date) && rep.textoBiblico !in {"", NotInformed, WomensService} ==>
      r.textoBiblico == rep.textoBiblico
    ensures DayIndex(rep.dayOfWeek) == Weekday(rep.date) && prev.dayOfWeek != Some(rep.dayOfWeek) ==>
      r.textoBiblico ==
        if rep.dayOfWeek == QUA && rep.textoBiblico in {"", NotInformed} then WomensService
        else if rep.dayOfWeek != SEG && rep.dayOfWeek != QUA && rep.textoBiblico == WomensService then ""
        else rep.textoBiblico
    ensures Conforms(prev) && ReportConforms(rep) ==> Conforms(r)
  {
    ResolveKeepsConsistentTag(rep.date, rep.dayOfWeek);
    var cur := Form(Some(rep.date), Some(rep.dayOfWeek), Some(rep.portao),
                    Some(rep.louvor), Some(rep.palavra), rep.textoBiblico);
    var r := Settle(prev, cur);
    assert Slot(r, Louvor) == r.louvor && Slot(r, Palavra) == r.palavra;
    assert Slot(cur, Louvor) == Some(Role(rep, Louvor)) && Slot(cur, Palavra) == Some(Role(rep, Palavra));
    r
  }

  // ---------------------------------------------------------------------------
  // Saving

  datatype SaveError = MissingDateDayOrGate | MissingWorship | MissingSermon

  datatype Check = Pass | Fail(error: SaveError)

  /** Required fields are present: date, tag and gate, and each role its tag requires. */
  predicate Complete(f: Form) {
    f.date.Some? && f.dayOfWeek.Some? &&
    forall task :: Requirement(f.dayOfWeek, task) == Required ==> Slot(f, task).Some?
  }

  /** `handleSaveReport`'s checks, in their order: date, tag and gate; then worship unless
      QUA; then sermon unless SEG or QUA. The form passes exactly when it is complete, and a
      failure names the first check that failed. */
  function Validate(f: Form): (r: Check)
    ensures r == Pass <==> Complete(f)
    ensures r == Fail(MissingDateDayOrGate) <==> (f.date.None? || f.dayOfWeek.None? || f.portao.None?)
    ensures r == Fail(MissingWorship) <==>
      && f.date.Some? && f.dayOfWeek.Some? && f.portao.Some?
      && Requirement(f.dayOfWeek, Louvor) == Required && f.louvor.None?
    ensures r == Fail(MissingSermon) <==>
      && f.date.Some? && f.dayOfWeek.Some? && f.portao.Some?
      && (Requirement(f.dayOfWeek, Louvor) == Required ==> f.louvor.Some?)
      && Requirement(f.dayOfWeek, Palavra) == Required && f.palavra.None?
  {
    var isSpecialDay := f.dayOfWeek == Some(SEG) || f.dayOfWeek == Some(QUA);
    var isQua := f.dayOfWeek == Some(QUA);
    assert Requirement(f.dayOfWeek, Portao) == Required;
    assert Requirement(f.dayOfWeek, Louvor) == Required <==> !isQua;
    assert Requirement(f.dayOfWeek, Palavra) == Required <==> !isSpecialDay;
    if f.date.None? || f.dayOfWeek.None? || f.portao.None? then Fail(MissingDateDayOrGate)
    else if !isQua && f.louvor.None? then Fail(MissingWorship)
    else if !isSpecialDay && f.palavra.None? then Fail(MissingSermon)
    else
      assert forall task :: Requirement(f.dayOfWeek, task) == Required ==> Slot(f, task).Some? by {
        forall task | Requirement(f.dayOfWeek, task) == Required ensures Slot(f, task).Some? {
          assert task == Portao || task == Louvor || task == Palavra;
        }
      }
      Pass
  }

  /** The stored scripture text: the trimmed text, or when that is empty the women's-service
      phrase on QUA and the "not informed" placeholder elsewhere. Never empty, never padded. */
  function StoredText(text: string, day: Day): (r: string)
    ensures r != ""
    ensures !Text.IsSpace(r[0]) && !Text.IsSpace(r[|r| - 1])
    ensures Text.AllSpace(text) ==> r == Placeholder(day)
    ensures !Text.AllSpace(text) ==> Text.Framed(r, text, Text.IsSpace)
    ensures !Text.AllSpace(text) && !Text.IsSpace(text[0]) && !Text.IsSpace(text[|text| - 1]) ==> r == text
  {
    var t := Text.Trim(text);
    if t == "" then Placeholder(day) else t
  }

  /** What an empty scripture text is stored as: the women's-service phrase on QUA and the
      "not informed" placeholder elsewhere. */
  function Placeholder(day: Day): (r: string)
    ensures r != "" && !Text.IsSpace(r[0]) && !Text.IsSpace(r[|r| - 1])
  {
    if day == QUA then WomensService else NotInformed
  }

  /** The report a complete form saves as, with id `id` and creation time `timestamp`: an
      empty worship or sermon is stored as the sentinel. A conforming form saves as a
      conforming report. */
  function Stored(f: Form, id: string, timestamp: int): (r: Report)
    requires Validate(f) == Pass
    ensures r.id == id && r.timestamp == timestamp
    ensures Some(r.date) == f.date && Some(r.dayOfWeek) == f.dayOfWeek && Some(r.portao) == f.portao
    ensures forall task :: task != Portao ==> Role(r, task) == Slot(f, task).GetOr(NaoHouve)
    ensures r.textoBiblico == StoredText(f.textoBiblico, r.dayOfWeek)
    ensures Conforms(f) ==> ReportConforms(r)
  {
    Report(id, f.date.value, f.dayOfWeek.value, f.portao.value,
           f.louvor.GetOr(NaoHouve), f.palavra.GetOr(NaoHouve),
           StoredText(f.textoBiblico, f.dayOfWeek.value), timestamp)
  }

  /** The record invariant: the tag belongs to the date's weekday, the gate is a worker, a
      suppressed role holds the sentinel and a required role holds a worker. */
  ghost predicate ReportConforms(r: Report) {
    DayIndex(r.dayOfWeek) == Weekday(r.date) && r.portao != NaoHouve &&
    forall task :: task != Portao ==>
      (Role(r, task) == NaoHouve <==> Requirement(Some(r.dayOfWeek), task) == Suppressed)
  }
}
