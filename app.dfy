/** The application state of App.tsx: the saved reports, the form fields and the id of the
    report being edited, updated step by step by the user's actions and by the effects that
    watch the date and the service-day tag. */
module AppState {
  import opened Types
  import opened DayRules
  import opened Records

  /** The form as React initialises it: today's date and every other field empty. */
  function Blank(today: int): Form {
    Form(Some(today), None, None, None, None, "")
  }

  class App {
    var reports: seq<Report>
    var date: Option<int>
    var dayOfWeek: Option<Day>
    var portao: Option<Worker>
    var louvor: Option<Worker>
    var palavra: Option<Worker>
    var textoBiblico: string
    var editingReportId: Option<string>

    function Fields(): Form
      reads this
    {
      Form(date, dayOfWeek, portao, louvor, palavra, textoBiblico)
    }

    /** An edit is in progress: the id is set and, being tested for truthiness, not empty. */
    predicate Editing()
      reads this
    {
      editingReportId.Some? && editingReportId.value != ""
    }

    /** The state invariant: unique ids, every report and the form agree with their tags. */
    ghost predicate Sound()
      reads this
    {
      UniqueIds(reports) && AllConform(reports) && Conforms(Fields())
    }

    /** Mounting: the stored reports are loaded and the tag is resolved for today. The state
        is sound exactly when the loaded reports are. */
    constructor (today: int, loaded: seq<Report>)
      ensures reports == loaded && editingReportId == None
      ensures Fields() == Reset(Blank(today), today)
      ensures Sound() <==> UniqueIds(loaded) && AllConform(loaded)
    {
      reports := loaded;
      date, dayOfWeek := Some(today), None;
      portao, louvor, palavra := None, None, None;
      textoBiblico := "";
      editingReportId := None;
      new;
      var prev := Fields();
      dayOfWeek := ResolveDay(date, None);
      RunEffects(prev);
    }

    /** The `[dayOfWeek]` effect on the current fields. */
    method DayChangeEffect()
      modifies this
      ensures Fields() == ApplyDayChange(old(Fields()), old(dayOfWeek))
      ensures reports == old(reports) && editingReportId == old(editingReportId)
    {
      if dayOfWeek == Some(SEG) {
        palavra := Some(NaoHouve);
        if louvor == Some(NaoHouve) { louvor := None; }
      } else if dayOfWeek == Some(QUA) {
        palavra := Some(NaoHouve);
        louvor := Some(NaoHouve);
        if textoBiblico == "" || textoBiblico == NotInformed {
          textoBiblico := WomensService;
        }
      } else {
        if palavra == Some(NaoHouve) { palavra := None; }
        if louvor == Some(NaoHouve) { louvor := None; }
        if textoBiblico == WomensService { textoBiblico := ""; }
      }
    }

    /** The effects that run after the fields moved from `prev` to their current values. */
    method RunEffects(prev: Form)
      modifies this
      ensures Fields() == Settle(prev, old(Fields()))
      ensures reports == old(reports) && editingReportId == old(editingReportId)
    {
      var resolved := if date != prev.date then ResolveDay(date, dayOfWeek) else dayOfWeek;
      var rendered := dayOfWeek;
      if dayOfWeek != prev.dayOfWeek {
        DayChangeEffect();
      }
      if resolved != rendered {
        dayOfWeek := resolved;
        DayChangeEffect();
      }
    }

    /** The date input changed. */
    method SetDate(d: Option<int>)
      modifies this
      ensures Fields() == Settle(old(Fields()), old(Fields()).(date := d))
      ensures reports == old(reports) && editingReportId == old(editingReportId)
      ensures old(Sound()) ==> Sound()
    {
      var prev := Fields();
      date := d;
      RunEffects(prev);
    }

    /** The EBD or DOM button, shown when the date is a Sunday. */
    method ChooseService(s: Day)
      requires s == EBD || s == DOM
      requires date.Some? && Weekday(date.value) == 0
      modifies this
      ensures Fields() == Settle(old(Fields()), old(Fields()).(dayOfWeek := Some(s)))
      ensures dayOfWeek == Some(s)
      ensures reports == old(reports) && editingReportId == old(editingReportId)
      ensures old(Sound()) ==> Sound()
    {
      var prev := Fields();
      dayOfWeek := Some(s);
      RunEffects(prev);
    }

    /** A role selector changed. A selector is shown only for a role the tag requires and
        offers the workers and the empty choice, never the sentinel. */
    method SelectWorker(task: Task, w: Option<Worker>)
      requires Requirement(dayOfWeek, task) == Required
      requires w != Some(NaoHouve)
      modifies this
      ensures Slot(Fields(), task) == w
      ensures forall t :: t != task ==> Slot(Fields(), t) == Slot(old(Fields()), t)
      ensures date == old(date) && dayOfWeek == old(dayOfWeek) && textoBiblico == old(textoBiblico)
      ensures reports == old(reports) && editingReportId == old(editingReportId)
      ensures old(Sound()) ==> Sound()
    {
      match task
      case Portao => portao := w;
      case Louvor => louvor := w;
      case Palavra => palavra := w;
    }

    /** The scripture text area, hidden on QUA. */
    method SetText(text: string)
      requires dayOfWeek != Some(QUA)
      modifies this
      ensures Fields() == old(Fields()).(textoBiblico := text)
      ensures reports == old(reports) && editingReportId == old(editingReportId)
      ensures old(Sound()) ==> Sound()
    {
      textoBiblico := text;
    }

    /** `resetForm`: leaves editing and clears the form for today. */
    method ResetForm(today: int)
      modifies this
      ensures editingReportId == None && reports == old(reports)
      ensures Fields() == Reset(old(Fields()), today)
      ensures old(Sound()) ==> Sound()
    {
      var prev := Fields();
      editingReportId := None;
      date := Some(today);
      portao, louvor, palavra := None, None, None;
      textoBiblico := "";
      dayOfWeek := ResolveDay(Some(today), None);
      RunEffects(prev);
    }

    /** `cancelEdit`: the same reset. */
    method CancelEdit(today: int)
      modifies this
      ensures editingReportId == None && reports == old(reports)
      ensures Fields() == Reset(old(Fields()), today)
      ensures old(Sound()) ==> Sound()
    {
      ResetForm(today);
    }

    /** `startEditing`: the form takes the fields of a listed report and remembers its id. */
    method StartEditing(r: Report)
      requires r in reports
      modifies this
      ensures editingReportId == Some(r.id) && reports == old(reports)
      ensures Fields() == Load(old(Fields()), r)
      ensures old(Sound()) ==> Sound()
    {
      var prev := Fields();
      editingReportId := Some(r.id);
      date, dayOfWeek := Some(r.date), Some(r.dayOfWeek);
      portao, louvor, palavra := Some(r.portao), Some(r.louvor), Some(r.palavra);
      textoBiblico := r.textoBiblico;
      RunEffects(prev);
    }

    /** `handleSaveReport`. An incomplete form changes nothing and names the first missing
        field. A complete one either rewrites the edited report in place or puts a new
        report, with the fresh id `newId` and creation time `nowMs`, in front of the list;
        then the form is reset for `today`. */
    method Save(newId: string, nowMs: int, today: int) returns (outcome: Check)
      requires newId !in Ids(reports)
      modifies this
      ensures outcome == Validate(old(Fields()))
      ensures outcome.Fail? ==>
        reports == old(reports) && Fields() == old(Fields()) && editingReportId == old(editingReportId)
      ensures outcome.Pass? && !old(Editing()) ==>
        reports == Prepend(old(reports), Stored(old(Fields()), newId, nowMs))
      ensures outcome.Pass? && old(Editing()) ==>
        reports == ReplaceById(old(reports), old(editingReportId).value, old(Fields()))
      ensures outcome.Pass? ==> editingReportId == None && Fields() == Reset(old(Fields()), today)
      ensures old(Sound()) ==> Sound()
    {
      var form := Fields();
      outcome := Validate(form);
      if outcome.Fail? {
        return;
      }
      if Editing() {
        reports := ReplaceById(reports, editingReportId.value, form);
        editingReportId := None;
      } else {
        var report := Stored(form, newId, nowMs);
        reports := Prepend(reports, report);
      }
      ResetForm(today);
    }

    /** Deleting one report (after the user confirmed). The form and an edit in progress are
        left as they are, even when the deleted report is the one being edited. */
    method Delete(id: string)
      modifies this
      ensures reports == RemoveById(old(reports), id)
      ensures Fields() == old(Fields()) && editingReportId == old(editingReportId)
      ensures old(Sound()) ==> Sound()
    {
      if UniqueIds(reports) {
        RemoveKeepsUnique(reports, id);
      }
      reports := RemoveById(reports, id);
    }

    /** Clearing the whole history (after the user confirmed). */
    method ClearAll()
      modifies this
      ensures reports == []
      ensures Fields() == old(Fields()) && editingReportId == old(editingReportId)
      ensures old(Sound()) ==> Sound()
    {
      reports := [];
    }
  }
}
