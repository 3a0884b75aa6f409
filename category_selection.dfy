/** The category step of onboarding: the fixed category cards, and the two
    rules the screen derives from how many cards are selected (the Continue
    button's disabled state and the "N categoria(s) selecionada(s)" counter). */
module CategorySelection {
  import opened Wrappers
  import opened Selection

  /** One card; its icon and emoji are presentation and left out. */
  datatype Category = Category(id: Key, name: string)

  /** The `categories` table, in display order. */
  function Categories(): seq<Category> {
    [ Category("maquiagem", "Maquiagem"), Category("cabelo", "Cabelo"),
      Category("unhas", "Unhas"), Category("massagem", "Massagem"),
      Category("sobrancelha", "Sobrancelha"), Category("depilacao", "Depilação") ]
  }

  /** The ids the cards pass to `toggleCategory`: six distinct ids. */
  function Ids(): (ids: seq<Key>)
    ensures |ids| == |Categories()| == 6
    ensures NoDup(ids)
    ensures forall i :: 0 <= i < 6 ==> ids[i] == Categories()[i].id
  {
    var table := Categories();
    seq(|table|, i requires 0 <= i < |table| => table[i].id)
  }

  /** `disabled={selectedCategories.length === 0}` */
  function ContinueDisabled(selected: seq<Key>): (disabled: bool)
    ensures disabled <==> forall id :: id !in selected
  {
    assert selected != [] ==> selected[0] in selected;
    |selected| == 0
  }

  /** The plural suffix `'s'`, used after both words of the counter. */
  function Plural(n: nat): (s: string)
    ensures s == "s" <==> n > 1
    ensures s == "" <==> n <= 1
  {
    if n > 1 then "s" else ""
  }

  function DigitChar(d: nat): (c: char)
    requires d < 10
    ensures '0' <= c <= '9' && c as int - '0' as int == d
  {
    ('0' as int + d) as char
  }

  /** The decimal text React renders for a number: `String(n)`, with no
      leading zero except for zero itself. */
  function Decimal(n: nat): (s: string)
    ensures |s| >= 1
    ensures forall i :: 0 <= i < |s| ==> '0' <= s[i] <= '9'
    ensures n == 0 ==> s == "0"
    ensures n > 0 ==> s[0] != '0'
    decreases n
  {
    if n < 10 then [DigitChar(n)] else Decimal(n / 10) + [DigitChar(n % 10)]
  }

  /** Reads decimal digits back as a number. */
  function DigitsValue(s: string): nat
    requires forall i :: 0 <= i < |s| ==> '0' <= s[i] <= '9'
    decreases |s|
  {
    if s == [] then 0
    else 10 * DigitsValue(s[..|s| - 1]) + (s[|s| - 1] as int - '0' as int)
  }

  /** The counter shows the count itself. */
  lemma {:induction false} DecimalValue(n: nat)
    ensures DigitsValue(Decimal(n)) == n
    decreases n
  {
    var s := Decimal(n);
    if n >= 10 {
      DecimalValue(n / 10);
      assert s[..|s| - 1] == Decimal(n / 10);
    }
  }

  /** The counter paragraph, or `None` when it is not rendered. JSX joins
      `{n} categoria`, `{'s' or ''}`, ` selecionada` and `{'s' or ''}`. */
  function Counter(selected: seq<Key>): (line: Option<string>)
    ensures line.Some? <==> |selected| > 0
    ensures |selected| == 1 ==> line == Some("1 categoria selecionada")
    ensures |selected| > 1 ==> line == Some(Decimal(|selected|) + " categorias selecionadas")
  {
    var n := |selected|;
    if n > 0 then
      var text := Decimal(n) + (" categoria" + Plural(n) + " selecionada" + Plural(n));
      assert " categoria" + "" + " selecionada" + "" == " categoria selecionada";
      assert " categoria" + "s" + " selecionada" + "s" == " categorias selecionadas";
      assert [DigitChar(1)] + " categoria selecionada" == "1 categoria selecionada";
      Some(text)
    else None
  }

  /** The counter is visible exactly when Continue can be pressed. */
  lemma CounterIffEnabled(selected: seq<Key>)
    ensures Counter(selected).Some? <==> !ContinueDisabled(selected)
  {
  }

  /** The selection after the cards `clicks` are pressed in order. */
  function ToggleAll(selected: seq<Key>, clicks: seq<Key>): seq<Key>
    decreases |clicks|
  {
    if clicks == [] then selected else ToggleAll(Toggle(selected, clicks[0]), clicks[1..])
  }

  /** Pressing only cards of the table keeps the selection distinct ids of the table. */
  lemma {:induction false} ToggleAllKeepsDistinct(selected: seq<Key>, clicks: seq<Key>)
    requires NoDup(selected) && Within(selected, Ids()) && Within(clicks, Ids())
    ensures NoDup(ToggleAll(selected, clicks)) && Within(ToggleAll(selected, clicks), Ids())
    decreases |clicks|
  {
    if clicks != [] {
      WithinTail(clicks, Ids());
      ToggleKeepsNoDup(selected, clicks[0]);
      ToggleKeepsWithin(selected, clicks[0], Ids());
      ToggleAllKeepsDistinct(Toggle(selected, clicks[0]), clicks[1..]);
    }
  }

  /** From the empty selection, whatever cards are pressed, the selection holds
      distinct category ids, at most six; Continue is enabled and the counter
      shown exactly when it is not empty. */
  lemma ReachableSelectionsBounded(clicks: seq<Key>)
    requires Within(clicks, Ids())
    ensures NoDup(ToggleAll([], clicks)) && Within(ToggleAll([], clicks), Ids())
    ensures |ToggleAll([], clicks)| <= 6
    ensures !ContinueDisabled(ToggleAll([], clicks)) <==> Counter(ToggleAll([], clicks)).Some?
  {
    ToggleAllKeepsDistinct([], clicks);
    BoundedByKeys(ToggleAll([], clicks), Ids());
  }
}
