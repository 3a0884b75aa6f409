/** The company-profile form that both onboarding screens keep in one React
    state slot: five text inputs and the list of opening days. Every updater
    builds a fresh record with object spread; nothing is changed in place. */
module CompanyForm {
  import opened Selection

  datatype Form = Form(
    nome: string,
    descricao: string,
    endereco: string,
    horarioInicio: string,
    horarioFim: string,
    diasFuncionamento: seq<Key>)

  /** The text inputs: the only field names the screens pass to `handleInputChange`. */
  datatype Field = Nome | Descricao | Endereco | HorarioInicio | HorarioFim

  /** One button of the weekday row. */
  datatype DayButton = DayButton(key: Key, caption: string)

  /** The `diasSemana` table, Monday first. */
  function DiasSemana(): seq<DayButton> {
    [ DayButton("seg", "Seg"), DayButton("ter", "Ter"), DayButton("qua", "Qua"),
      DayButton("qui", "Qui"), DayButton("sex", "Sex"), DayButton("sab", "Sáb"),
      DayButton("dom", "Dom") ]
  }

  /** The keys the weekday buttons pass to `toggleDia`: seven distinct keys. */
  function DayKeys(): (keys: seq<Key>)
    ensures |keys| == |DiasSemana()| == 7
    ensures NoDup(keys)
    ensures forall i :: 0 <= i < 7 ==> keys[i] == DiasSemana()[i].key
  {
    var table := DiasSemana();
    seq(|table|, i requires 0 <= i < |table| => table[i].key)
  }

  /** The state the screens start from. */
  function Initial(): Form {
    Form("", "", "", "06:00", "17:00", [])
  }

  /** The value of one text input. */
  function Get(f: Form, field: Field): string {
    match field
    case Nome => f.nome
    case Descricao => f.descricao
    case Endereco => f.endereco
    case HorarioInicio => f.horarioInicio
    case HorarioFim => f.horarioFim
  }

  /** `setFormData(prev => ({ ...prev, [field]: value }))` */
  function HandleInputChange(f: Form, field: Field, value: string): (r: Form)
    ensures Get(r, field) == value
    ensures forall g :: g != field ==> Get(r, g) == Get(f, g)
    ensures r.diasFuncionamento == f.diasFuncionamento
  {
    match field
    case Nome => f.(nome := value)
    case Descricao => f.(descricao := value)
    case Endereco => f.(endereco := value)
    case HorarioInicio => f.(horarioInicio := value)
    case HorarioFim => f.(horarioFim := value)
  }

  /** `setFormData(prev => ({ ...prev, diasFuncionamento: <toggled> }))` */
  function ToggleDia(f: Form, dia: Key): (r: Form)
    ensures forall g :: Get(r, g) == Get(f, g)
    ensures r.diasFuncionamento == Toggle(f.diasFuncionamento, dia)
  {
    f.(diasFuncionamento := Toggle(f.diasFuncionamento, dia))
  }

  /** The invariant the screens keep: the chosen days are distinct weekday keys. */
  ghost predicate Valid(f: Form) {
    NoDup(f.diasFuncionamento) && Within(f.diasFuncionamento, DayKeys())
  }

  /** Two forms that agree on every text input and on the days are equal. */
  lemma FormExtensionality(a: Form, b: Form)
    requires forall g :: Get(a, g) == Get(b, g)
    requires a.diasFuncionamento == b.diasFuncionamento
    ensures a == b
  {
    assert Get(a, Nome) == Get(b, Nome) && Get(a, Descricao) == Get(b, Descricao);
    assert Get(a, Endereco) == Get(b, Endereco);
    assert Get(a, HorarioInicio) == Get(b, HorarioInicio) && Get(a, HorarioFim) == Get(b, HorarioFim);
  }

  /** The initial form: blank text fields, opening hours 06:00 to 17:00, no days. */
  lemma InitialIsBlank()
    ensures forall g :: g in {Nome, Descricao, Endereco} ==> Get(Initial(), g) == ""
    ensures Get(Initial(), HorarioInicio) == "06:00" && Get(Initial(), HorarioFim) == "17:00"
    ensures Initial().diasFuncionamento == []
    ensures Valid(Initial())
  {
  }

  /** Typing into a field twice keeps only the last value. */
  lemma InputChangeLastWins(f: Form, field: Field, v1: string, v2: string)
    ensures HandleInputChange(HandleInputChange(f, field, v1), field, v2)
         == HandleInputChange(f, field, v2)
  {
    FormExtensionality(HandleInputChange(HandleInputChange(f, field, v1), field, v2),
                       HandleInputChange(f, field, v2));
  }

  /** Edits to two different fields do not interfere. */
  lemma InputChangesCommute(f: Form, g1: Field, v1: string, g2: Field, v2: string)
    requires g1 != g2
    ensures HandleInputChange(HandleInputChange(f, g1, v1), g2, v2)
         == HandleInputChange(HandleInputChange(f, g2, v2), g1, v1)
  {
    FormExtensionality(HandleInputChange(HandleInputChange(f, g1, v1), g2, v2),
                       HandleInputChange(HandleInputChange(f, g2, v2), g1, v1));
  }

  /** Clicking an unchosen day twice restores the form. */
  lemma ToggleDiaTwice(f: Form, dia: Key)
    requires dia !in f.diasFuncionamento
    ensures ToggleDia(ToggleDia(f, dia), dia) == f
  {
    ToggleTwiceAbsent(f.diasFuncionamento, dia);
  }

  /** Both updaters keep the invariant, toggles as long as the day is a weekday key. */
  lemma UpdatesKeepValid(f: Form, field: Field, value: string, dia: Key)
    requires Valid(f)
    ensures Valid(HandleInputChange(f, field, value))
    ensures dia in DayKeys() ==> Valid(ToggleDia(f, dia))
  {
    ToggleKeepsNoDup(f.diasFuncionamento, dia);
    if dia in DayKeys() {
      ToggleKeepsWithin(f.diasFuncionamento, dia, DayKeys());
    }
  }

  /** A valid form holds at most seven days. */
  lemma ValidBounded(f: Form)
    requires Valid(f)
    ensures |f.diasFuncionamento| <= 7
  {
    BoundedByKeys(f.diasFuncionamento, DayKeys());
  }

  /** A change the user makes to the form on either screen: typing into a text
      input, or pressing the weekday button with key `dia`. */
  datatype Edit = InputChange(field: Field, value: string) | ClickDay(dia: Key)

  /** The form after one change: `handleInputChange` or `toggleDia`. */
  function Apply(f: Form, e: Edit): Form {
    match e
    case InputChange(field, value) => HandleInputChange(f, field, value)
    case ClickDay(dia) => ToggleDia(f, dia)
  }

  /** The form after a sequence of changes. */
  function ApplyAll(f: Form, edits: seq<Edit>): Form
    decreases |edits|
  {
    if edits == [] then f else ApplyAll(Apply(f, edits[0]), edits[1..])
  }

  /** Every day click comes from a button of the weekday row. */
  ghost predicate FromButtons(edits: seq<Edit>) {
    forall i :: 0 <= i < |edits| && edits[i].ClickDay? ==> edits[i].dia in DayKeys()
  }

  /** Any sequence of edits and weekday clicks keeps the invariant. */
  lemma {:induction false} ApplyAllKeepsValid(f: Form, edits: seq<Edit>)
    requires Valid(f) && FromButtons(edits)
    ensures Valid(ApplyAll(f, edits))
    decreases |edits|
  {
    if edits != [] {
      match edits[0] {
        case InputChange(field, value) => UpdatesKeepValid(f, field, value, "seg");
        case ClickDay(dia) => UpdatesKeepValid(f, Nome, "", dia);
      }
      assert FromButtons(edits[1..]) by {
        forall i | 0 <= i < |edits[1..]| && edits[1..][i].ClickDay?
          ensures edits[1..][i].dia in DayKeys()
        {
          assert edits[1..][i] == edits[i + 1];
        }
      }
      ApplyAllKeepsValid(Apply(f, edits[0]), edits[1..]);
    }
  }

  /** Whatever the user types and clicks from the initial form, the chosen days
      stay distinct weekday keys, at most seven of them. */
  lemma ReachableFormsBounded(edits: seq<Edit>)
    requires FromButtons(edits)
    ensures Valid(ApplyAll(Initial(), edits))
    ensures |ApplyAll(Initial(), edits).diasFuncionamento| <= 7
  {
    InitialIsBlank();
    ApplyAllKeepsValid(Initial(), edits);
    ValidBounded(ApplyAll(Initial(), edits));
  }
}
