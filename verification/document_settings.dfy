/** The document settings form
    (`src/components/resume/editor/forms/document-settings-form.tsx`).
    Every number is held in hundredths of the source's unit (points, or a
    plain factor for the line height), so the source's steps of 0.5 and
    0.1 and its two-decimal rounding are exact integers here. */
module DocumentSettingsForm {
  import opened Wrappers

  datatype Section = Skills | Experience | Projects | Education

  /** The four settings `SectionSettings` edits for a section:
      `<section>_margin_top`, `_margin_bottom`, `_margin_horizontal` and
      `_item_spacing`. */
  datatype SectionPart = MarginTop | MarginBottom | MarginHorizontal | ItemSpacing

  /** The numeric fields of the settings object. */
  datatype Field =
    | DocumentFontSize
    | DocumentLineHeight
    | DocumentMarginVertical
    | DocumentMarginHorizontal
    | HeaderNameSize
    | HeaderNameBottomSpacing
    | SectionField(section: Section, part: SectionPart)
    | FooterWidth

  /** The settings object: the numeric fields that are present, and the
      footer switch when it has been set. A field missing from `numbers`
      is absent or null. */
  datatype Settings = Settings(numbers: map<Field, int>, showUbcFooter: Option<bool>)

  /** `defaultSettings`. */
  const DefaultNumbers: map<Field, int> := map[
    DocumentFontSize := 1000,
    DocumentLineHeight := 150,
    DocumentMarginVertical := 3600,
    DocumentMarginHorizontal := 3600,
    HeaderNameSize := 2400,
    HeaderNameBottomSpacing := 2400,
    SectionField(Skills, MarginTop) := 200,
    SectionField(Skills, MarginBottom) := 200,
    SectionField(Skills, MarginHorizontal) := 0,
    SectionField(Skills, ItemSpacing) := 200,
    SectionField(Experience, MarginTop) := 200,
    SectionField(Experience, MarginBottom) := 200,
    SectionField(Experience, MarginHorizontal) := 0,
    SectionField(Experience, ItemSpacing) := 400,
    SectionField(Projects, MarginTop) := 200,
    SectionField(Projects, MarginBottom) := 200,
    SectionField(Projects, MarginHorizontal) := 0,
    SectionField(Projects, ItemSpacing) := 400,
    SectionField(Education, MarginTop) := 200,
    SectionField(Education, MarginBottom) := 200,
    SectionField(Education, MarginHorizontal) := 0,
    SectionField(Education, ItemSpacing) := 400]

  const Defaults := Settings(DefaultNumbers, None)

  /** A number input with its slider: bounds, step, and the value shown
      when the field is missing. */
  datatype Control = Control(min: int, max: int, step: int, fallback: int)

  /** The control rendered for each field. */
  function ControlOf(f: Field): Control {
    match f
    case DocumentFontSize => Control(800, 1200, 50, 1000)
    case DocumentLineHeight => Control(100, 200, 10, 150)
    case DocumentMarginVertical => Control(1800, 10800, 200, 3600)
    case DocumentMarginHorizontal => Control(1800, 10800, 200, 3600)
    case HeaderNameSize => Control(0, 4000, 100, 2400)
    case HeaderNameBottomSpacing => Control(0, 5000, 100, 2400)
    case SectionField(_, MarginTop) => Control(0, 4800, 100, 200)
    case SectionField(_, MarginBottom) => Control(0, 4800, 100, 200)
    case SectionField(_, MarginHorizontal) => Control(0, 7200, 200, 0)
    case SectionField(_, ItemSpacing) => Control(0, 1600, 50, 400)
    case FooterWidth => Control(5000, 10000, 100, 9500)
  }

  /** `documentSettings?.[field] ?? fallback`. */
  function Shown(st: Settings, f: Field): (v: int)
    ensures f in st.numbers ==> v == st.numbers[f]
    ensures f !in st.numbers ==> v == ControlOf(f).fallback
  {
    if f in st.numbers then st.numbers[f] else ControlOf(f).fallback
  }

  /** The up arrow: `Math.min(max, value + step)`. */
  function Increment(c: Control, v: int): (r: int)
    ensures r <= c.max
    ensures r == v + c.step || r == c.max
    ensures v + c.step <= c.max ==> r == v + c.step
  {
    if v + c.step < c.max then v + c.step else c.max
  }

  /** The down arrow: `Math.max(min, value - step)`. */
  function Decrement(c: Control, v: int): (r: int)
    ensures r >= c.min
    ensures r == v - c.step || r == c.min
    ensures v - c.step >= c.min ==> r == v - c.step
  {
    if v - c.step > c.min then v - c.step else c.min
  }

  /** `v` lies in the control's range, a whole number of steps above its
      minimum. */
  predicate OnGrid(c: Control, v: int) {
    c.step > 0 && c.min <= v <= c.max && (v - c.min) % c.step == 0
  }

  /** Starting inside the range, the arrows stay inside it and move by at
      most one step. */
  lemma ArrowsStayInRange(c: Control, v: int)
    requires c.step > 0 && c.min <= v <= c.max
    ensures c.min <= Increment(c, v) <= c.max && v <= Increment(c, v) <= v + c.step
    ensures c.min <= Decrement(c, v) <= c.max && v - c.step <= Decrement(c, v) <= v
  {
  }

  /** Away from the top bound, down undoes up; away from the bottom, up
      undoes down. */
  lemma ArrowsUndoEachOther(c: Control, v: int)
    ensures v + c.step <= c.max && v >= c.min ==> Decrement(c, Increment(c, v)) == v
    ensures v - c.step >= c.min && v <= c.max ==> Increment(c, Decrement(c, v)) == v
  {
  }

  lemma MulAtLeast(d: int, b: int)
    requires d >= 1 && b > 0
    ensures d * b >= b
  {
  }

  /** Euclidean division has one quotient and remainder. */
  lemma DivModUnique(x: int, b: int, q: int, r: int)
    requires b > 0 && 0 <= r < b && x == q * b + r
    ensures x % b == r
  {
    var d := q - x / b;
    assert d * b == x % b - r;
    if d > 0 {
      MulAtLeast(d, b);
    } else if d < 0 {
      MulAtLeast(-d, b);
    }
  }

  lemma ModShift(a: int, b: int, sign: int)
    requires b > 0 && (sign == 1 || sign == -1)
    ensures (a + sign * b) % b == a % b
  {
    assert a == (a / b) * b + a % b;
    assert a + sign * b == (a / b + sign) * b + a % b;
    DivModUnique(a + sign * b, b, a / b + sign, a % b);
  }

  /** An arrow press from a value on the grid lands on the grid or on a
      bound. */
  lemma ArrowsKeepGrid(c: Control, v: int)
    requires OnGrid(c, v)
    ensures var u := Increment(c, v); OnGrid(c, u) || u == c.max
    ensures var d := Decrement(c, v); OnGrid(c, d) || d == c.min
  {
    ModShift(v - c.min, c.step, 1);
    ModShift(v - c.min, c.step, -1);
  }

  /** `{ ...documentSettings, [field]: value }`. */
  function SetNumber(st: Settings, f: Field, v: int): (st': Settings)
    ensures Shown(st', f) == v
    ensures st'.numbers.Keys == st.numbers.Keys + {f}
    ensures forall g :: g != f ==> Shown(st', g) == Shown(st, g)
    ensures st'.showUbcFooter == st.showUbcFooter
  {
    st.(numbers := st.numbers[f := v])
  }

  /** The arrows of a field's number input, applied to the value shown. */
  function PressUp(st: Settings, f: Field): (st': Settings)
    ensures Shown(st', f) == Increment(ControlOf(f), Shown(st, f))
    ensures forall g :: g != f ==> Shown(st', g) == Shown(st, g)
    ensures st'.showUbcFooter == st.showUbcFooter
  {
    SetNumber(st, f, Increment(ControlOf(f), Shown(st, f)))
  }

  function PressDown(st: Settings, f: Field): (st': Settings)
    ensures Shown(st', f) == Decrement(ControlOf(f), Shown(st, f))
    ensures forall g :: g != f ==> Shown(st', g) == Shown(st, g)
    ensures st'.showUbcFooter == st.showUbcFooter
  {
    SetNumber(st, f, Decrement(ControlOf(f), Shown(st, f)))
  }

  /** The footer switch shows `show_ubc_footer ?? false`. */
  function FooterChecked(st: Settings): bool {
    st.showUbcFooter.GetOr(false)
  }

  /** The footer switch: `show_ubc_footer: checked`, numbers untouched. */
  function SetFooter(st: Settings, checked: bool): (st': Settings)
    ensures st'.numbers == st.numbers
    ensures FooterChecked(st') == checked
  {
    st.(showUbcFooter := Some(checked))
  }

  /** The inputs the form renders: the global ones, four per section and,
      only while the footer is on, the footer width. */
  function VisibleFields(st: Settings): (fs: seq<Field>)
    ensures FooterWidth in fs <==> FooterChecked(st)
    ensures forall s: Section, p: SectionPart :: SectionField(s, p) in fs
  {
    var parts := [MarginTop, MarginBottom, MarginHorizontal, ItemSpacing];
    var all := [DocumentFontSize, DocumentLineHeight, DocumentMarginVertical,
                DocumentMarginHorizontal, HeaderNameSize, HeaderNameBottomSpacing]
               + seq(4, i requires 0 <= i < 4 => SectionField(Skills, parts[i]))
               + seq(4, i requires 0 <= i < 4 => SectionField(Experience, parts[i]))
               + seq(4, i requires 0 <= i < 4 => SectionField(Projects, parts[i]))
               + seq(4, i requires 0 <= i < 4 => SectionField(Education, parts[i]));
    assert forall s: Section, p: SectionPart :: SectionField(s, p) in all by {
      forall s: Section, p: SectionPart ensures SectionField(s, p) in all {
        var i := match p case MarginTop => 0 case MarginBottom => 1
                         case MarginHorizontal => 2 case ItemSpacing => 3;
        var k := match s case Skills => 6 case Experience => 10
                         case Projects => 14 case Education => 18;
        assert all[k + i] == SectionField(s, p);
      }
    }
    if FooterChecked(st) then all + [FooterWidth] else all
  }

  /** "Restore Defaults": the defaults replace everything, the footer
      switch included, which turns the footer off. */
  function RestoreDefaults(st: Settings): (st': Settings)
    ensures st'.numbers == DefaultNumbers
    ensures !FooterChecked(st') && FooterWidth !in VisibleFields(st')
  {
    Defaults
  }

  /** What rendering the form does: with no settings object it writes the
      defaults and renders nothing; otherwise it renders the inputs. */
  datatype RenderOutcome = Initialize(settings: Settings) | ShowForm(fields: seq<Field>)

  function Render(st: Option<Settings>): (out: RenderOutcome)
    ensures st.None? <==> out == Initialize(Defaults)
    ensures st.Some? ==> out == ShowForm(VisibleFields(st.value))
  {
    match st
    case None => Initialize(Defaults)
    case Some(s) => ShowForm(VisibleFields(s))
  }

  /** The defaults of one section's four settings lie on their grids. */
  lemma SectionDefaultsOnGrid(s: Section, p: SectionPart)
    ensures SectionField(s, p) in DefaultNumbers
    ensures OnGrid(ControlOf(SectionField(s, p)), DefaultNumbers[SectionField(s, p)])
  {
    match s {
      case Skills => match p { case MarginTop => case MarginBottom => case MarginHorizontal => case ItemSpacing => }
      case Experience => match p { case MarginTop => case MarginBottom => case MarginHorizontal => case ItemSpacing => }
      case Projects => match p { case MarginTop => case MarginBottom => case MarginHorizontal => case ItemSpacing => }
      case Education => match p { case MarginTop => case MarginBottom => case MarginHorizontal => case ItemSpacing => }
    }
  }

  /** The defaults hold every field but the footer width, each on its
      control's grid. */
  lemma DefaultsOnGrid(f: Field)
    ensures f in DefaultNumbers <==> f != FooterWidth
    ensures f in DefaultNumbers ==> OnGrid(ControlOf(f), DefaultNumbers[f])
    ensures OnGrid(ControlOf(f), ControlOf(f).fallback)
  {
    match f {
      case SectionField(s, p) => SectionDefaultsOnGrid(s, p);
      case FooterWidth =>
      case DocumentFontSize =>
      case DocumentLineHeight =>
      case DocumentMarginVertical =>
      case DocumentMarginHorizontal =>
      case HeaderNameSize =>
      case HeaderNameBottomSpacing =>
    }
  }

  /** Every input shows its default value on the defaults, save one: the
      skills item spacing shows 4 when missing but defaults to 2. */
  lemma FallbacksMatchDefaults(f: Field)
    requires f != FooterWidth
    ensures f in DefaultNumbers
    ensures ControlOf(f).fallback == DefaultNumbers[f] <==> f != SectionField(Skills, ItemSpacing)
    ensures Shown(Defaults, f) == DefaultNumbers[f]
  {
    DefaultsOnGrid(f);
  }
}
