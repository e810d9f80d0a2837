/**
 * The structured academic calendar the extraction produces and the cache
 * file holds: months in order, each with its events in order.
 */
module CalendarData {
  import opened Common

  /** The seven event categories of the extraction schema. */
  datatype Category = Feriado | SemAula | Avaliacao | Matricula | EventoInstitucional | Reposicao | Outro

  /** The category's value as it appears in the JSON, used as the task's label. */
  function CategoryLabel(c: Category): (tag: string)
    ensures |tag| > 0
  {
    match c
    case Feriado => "feriado"
    case SemAula => "sem_aula"
    case Avaliacao => "avaliacao"
    case Matricula => "matricula"
    case EventoInstitucional => "evento_institucional"
    case Reposicao => "reposicao"
    case Outro => "outro"
  }

  /** Distinct categories have distinct labels, so a task's label names its category. */
  lemma CategoryLabelInjective(c1: Category, c2: Category)
    ensures CategoryLabel(c1) == CategoryLabel(c2) <==> c1 == c2
  {
  }

  datatype Event = Event(
    startDate: Option<string>,
    endDate: Option<string>,
    dates: Option<seq<string>>,
    description: string,
    category: Category,
    hasClass: bool,
    notes: Option<string>)

  datatype Month = Month(name: string, events: seq<Event>)

  datatype Semester = First | Second

  datatype Summary = Summary(totalSchoolDays: Option<int>)

  datatype Calendar = Calendar(
    institution: Option<string>,
    year: int,
    semester: Semester,
    months: seq<Month>,
    summary: Option<Summary>)

  /** All events of the calendar, month by month and, within a month, in order. */
  function Flatten(months: seq<Month>): (events: seq<Event>)
  {
    if months == [] then []
    else Flatten(months[..|months| - 1]) + months[|months| - 1].events
  }

  /** The flattened sequence holds as many events as the months together. */
  function EventCount(months: seq<Month>): nat
  {
    if months == [] then 0 else |months[0].events| + EventCount(months[1..])
  }

  lemma {:induction false} FlattenAppend(ms1: seq<Month>, ms2: seq<Month>)
    ensures Flatten(ms1 + ms2) == Flatten(ms1) + Flatten(ms2)
  {
    if ms2 == [] {
      assert ms1 + ms2 == ms1;
    } else {
      var ms := ms1 + ms2;
      assert ms[..|ms| - 1] == ms1 + ms2[..|ms2| - 1];
      FlattenAppend(ms1, ms2[..|ms2| - 1]);
    }
  }

  /** Flattening keeps every event, month by month: its length is the total event count. */
  lemma {:induction false} FlattenLength(months: seq<Month>)
    ensures |Flatten(months)| == EventCount(months)
  {
    if months != [] {
      assert months == [months[0]] + months[1..];
      FlattenAppend([months[0]], months[1..]);
      assert Flatten([months[0]]) == months[0].events by {
        assert [months[0]][..0] == [];
      }
      FlattenLength(months[1..]);
    }
  }
}
