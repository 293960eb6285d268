/**
 The edit closures of the infographic renderer. Each one receives the current
 document (or a section, or a section's data) and builds the new value that the
 renderer hands to its `onUpdate` callback; nothing is changed in place.
 */
module Renderer {
  import opened Wrappers
  import opened JsText
  import opened Types
  import opened Seqs

  // ---------------------------------------------------------------------------
  // Text commits

  /** An editable text commits on blur only when its text differs from the
      value it was showing; the result is what `onSave` receives. */
  function CommitOnBlur(shown: string, typed: string): (r: Option<string>)
    ensures r.Some? <==> typed != shown
    ensures r.Some? ==> r.value == typed
  {
    if typed != shown then Some(typed) else None
  }

  // ---------------------------------------------------------------------------
  // Root fields

  /** The string-valued root properties of a document. */
  datatype RootField = TitleField | SubtitleField | ThemeColorField | BackgroundColorField | FooterField

  /** The current text of a root property (None only for an absent footer). */
  function RootText(d: Document, f: RootField): Option<string> {
    match f
    case TitleField => Some(d.title)
    case SubtitleField => Some(d.subtitle)
    case ThemeColorField => Some(d.themeColor)
    case BackgroundColorField => Some(d.backgroundColor)
    case FooterField => d.footer
  }

  /** `{ ...data, [field]: val }`: the named root property becomes `v`, and
      every other root property, the sections and the sources stay as they were. */
  function UpdateRoot(d: Document, f: RootField, v: string): (r: Document)
    ensures RootText(r, f) == Some(v)
    ensures forall g: RootField | g != f :: RootText(r, g) == RootText(d, g)
    ensures r.sections == d.sections && r.sources == d.sources
  {
    match f
    case TitleField => d.(title := v)
    case SubtitleField => d.(subtitle := v)
    case ThemeColorField => d.(themeColor := v)
    case BackgroundColorField => d.(backgroundColor := v)
    case FooterField => d.(footer := Some(v))
  }

  /** Two documents that agree on every root property, the sections and the
      sources are the same document; so `UpdateRoot`'s contract determines its
      result completely. */
  lemma RootFieldsDetermineDocument(a: Document, b: Document)
    requires forall g: RootField :: RootText(a, g) == RootText(b, g)
    requires a.sections == b.sections && a.sources == b.sources
    ensures a == b
  {
    assert RootText(a, TitleField) == RootText(b, TitleField);
    assert RootText(a, SubtitleField) == RootText(b, SubtitleField);
    assert RootText(a, ThemeColorField) == RootText(b, ThemeColorField);
    assert RootText(a, BackgroundColorField) == RootText(b, BackgroundColorField);
    assert RootText(a, FooterField) == RootText(b, FooterField);
  }

  /** Writing back the text a root property already has changes nothing, and
      any other text does change the document. */
  lemma UpdateRootNoChangeIff(d: Document, f: RootField, v: string)
    ensures UpdateRoot(d, f, v) == d <==> RootText(d, f) == Some(v)
  {
    if RootText(d, f) == Some(v) {
      RootFieldsDetermineDocument(UpdateRoot(d, f, v), d);
    }
  }

  /** Blurring a root text commits an edit exactly when it would change the
      document: a save is reported iff writing the typed text back through
      `UpdateRoot` gives a different document. */
  lemma CommitIffRootChanges(d: Document, f: RootField, shown: string, typed: string)
    requires RootText(d, f) == Some(shown)
    ensures CommitOnBlur(shown, typed).Some? <==> UpdateRoot(d, f, typed) != d
  {
    UpdateRootNoChangeIff(d, f, typed);
  }

  // ---------------------------------------------------------------------------
  // Sections

  /** `newSections[index] = newSection`: the section at `index` is replaced,
      the length, every other section and every root property are kept. The
      index always comes from rendering the current sections. */
  function UpdateSection(d: Document, index: nat, s: Section): (r: Document)
    requires index < |d.sections|
    ensures |r.sections| == |d.sections|
    ensures r.sections[index] == s
    ensures forall j | 0 <= j < |d.sections| && j != index :: r.sections[j] == d.sections[j]
    ensures forall g: RootField :: RootText(r, g) == RootText(d, g)
    ensures r.sources == d.sources
  {
    d.(sections := d.sections[index := s])
  }

  /** Putting back the section that is already there changes nothing. */
  lemma UpdateSectionSame(d: Document, index: nat)
    requires index < |d.sections|
    ensures UpdateSection(d, index, d.sections[index]) == d
  {
  }

  /** A second replacement at the same index overrides the first. */
  lemma UpdateSectionTwice(d: Document, index: nat, s1: Section, s2: Section)
    requires index < |d.sections|
    ensures UpdateSection(UpdateSection(d, index, s1), index, s2) == UpdateSection(d, index, s2)
  {
  }

  /** Replacements at different indices commute. */
  lemma UpdateSectionCommutes(d: Document, i: nat, j: nat, si: Section, sj: Section)
    requires i < |d.sections| && j < |d.sections| && i != j
    ensures UpdateSection(UpdateSection(d, i, si), j, sj) == UpdateSection(UpdateSection(d, j, sj), i, si)
  {
  }

  /** The three per-section text properties edited in place. */
  datatype SectionTextField = SectionTitle | SectionDescription | SectionChartDescription

  /** `updateSection(index, { ...section, [field]: val })` for the title and
      the two descriptions: only that text of that section changes. */
  function EditSectionText(d: Document, index: nat, f: SectionTextField, v: string): (r: Document)
    requires index < |d.sections|
    ensures |r.sections| == |d.sections|
    ensures forall j | 0 <= j < |d.sections| && j != index :: r.sections[j] == d.sections[j]
    ensures forall g: RootField :: RootText(r, g) == RootText(d, g)
    ensures r.sources == d.sources
    ensures var old_ := d.sections[index]; var new_ := r.sections[index];
      && new_.id == old_.id && new_.chartType == old_.chartType
      && new_.data == old_.data && new_.config == old_.config
      && new_.title == (if f == SectionTitle then v else old_.title)
      && new_.description == (if f == SectionDescription then Some(v) else old_.description)
      && new_.chartDescription == (if f == SectionChartDescription then Some(v) else old_.chartDescription)
  {
    var s := d.sections[index];
    var s' := match f
      case SectionTitle => s.(title := v)
      case SectionDescription => s.(description := Some(v))
      case SectionChartDescription => s.(chartDescription := Some(v));
    UpdateSection(d, index, s')
  }

  const NewSectionTitle: string := "หัวข้อใหม่"
  const NewSectionDescription: string := "คำอธิบายส่วนนี้..."

  /** `s-${Date.now()}`: the id of a section added at time `now` (milliseconds). */
  function NewSectionId(now: nat): (id: string)
    ensures |id| > 2 && id[..2] == "s-"
  {
    "s-" + DecimalString(now)
  }

  /** Sections added at different instants get different ids. */
  lemma NewSectionIdInjective(a: nat, b: nat)
    requires NewSectionId(a) == NewSectionId(b)
    ensures a == b
  {
    assert DecimalString(a) == NewSectionId(a)[2..];
    assert DecimalString(b) == NewSectionId(b)[2..];
    DecimalStringInjective(a, b);
  }

  /** The placeholder section appended by the add button. */
  function NewSection(now: nat): Section {
    Section(
      NewSectionId(now), Stat, NewSectionTitle, Some(NewSectionDescription), None,
      [DataPoint("ข้อมูล 1", 100.0, None), DataPoint("ข้อมูล 2", 200.0, None)],
      None)
  }

  /** `handleAddSection`: one more section at the end, a STAT section with two
      points valued 100 and 200; what was there before is untouched. The clock
      reading is the parameter `now`. */
  function AddSection(d: Document, now: nat): (r: Document)
    ensures |r.sections| == |d.sections| + 1
    ensures r.sections[..|d.sections|] == d.sections
    ensures var s := r.sections[|d.sections|];
      && s.id == NewSectionId(now) && s.chartType == Stat
      && s.title == NewSectionTitle && s.description == Some(NewSectionDescription)
      && s.chartDescription == None && s.config == None
      && |s.data| == 2
      && s.data[0] == DataPoint("ข้อมูล 1", 100.0, None)
      && s.data[1] == DataPoint("ข้อมูล 2", 200.0, None)
    ensures forall g: RootField :: RootText(r, g) == RootText(d, g)
    ensures r.sources == d.sources
  {
    d.(sections := d.sections + [NewSection(now)])
  }

  /** The section-remove button: `sections.filter((_, i) => i !== index)`.
      An index in range removes exactly that section, keeping the order of the
      rest; any other index leaves the sections as they are. */
  function RemoveSection(d: Document, index: int): (r: Document)
    ensures 0 <= index < |d.sections| ==>
      |r.sections| == |d.sections| - 1 && r.sections == d.sections[..index] + d.sections[index + 1..]
    ensures !(0 <= index < |d.sections|) ==> r == d
    ensures forall g: RootField :: RootText(r, g) == RootText(d, g)
    ensures r.sources == d.sources
  {
    d.(sections := Without(d.sections, index))
  }

  /** Removing the section that was just added restores the document. */
  lemma RemoveUndoesAdd(d: Document, now: nat)
    ensures RemoveSection(AddSection(d, now), |d.sections|) == d
  {
    WithoutLastOfAppend(d.sections, NewSection(now));
  }

  /** Adding a section whose id is new keeps the ids unique. */
  lemma AddSectionKeepsIdsUnique(d: Document, now: nat)
    requires UniqueIds(d.sections)
    requires NewSectionId(now) !in SectionIds(d.sections)
    ensures UniqueIds(AddSection(d, now).sections)
  {
    var r := AddSection(d, now).sections;
    forall i, j | 0 <= i < j < |r|
      ensures r[i].id != r[j].id
    {
      if j == |d.sections| {
        assert r[i] == d.sections[i];
        assert SectionIds(d.sections)[i] == r[i].id;
      }
    }
  }

  /** Removing a section keeps the ids unique. */
  lemma RemoveSectionKeepsIdsUnique(d: Document, index: int)
    requires UniqueIds(d.sections)
    ensures UniqueIds(RemoveSection(d, index).sections)
  {
    var r := RemoveSection(d, index).sections;
    if 0 <= index < |d.sections| {
      forall i, j | 0 <= i < j < |r|
        ensures r[i].id != r[j].id
      {
        WithoutAt(d.sections, index, i);
        WithoutAt(d.sections, index, j);
      }
    }
  }

  // ---------------------------------------------------------------------------
  // Chart type cycling

  /** The order the type button steps through. */
  const CycleOrder: seq<ChartType> := [Stat, Bar, Pie, Line, List]

  /** `types.indexOf(t)`; the enumeration is closed, so it is never -1. */
  function CycleIndex(t: ChartType): (i: nat)
    ensures i < |CycleOrder| && CycleOrder[i] == t
  {
    match t
    case Stat => 0
    case Bar => 1
    case Pie => 2
    case Line => 3
    case List => 4
  }

  /** `types[(types.indexOf(t) + 1) % types.length]`. */
  function NextChartType(t: ChartType): (r: ChartType)
    ensures CycleIndex(r) == (CycleIndex(t) + 1) % 5
  {
    CycleOrder[(CycleIndex(t) + 1) % |CycleOrder|]
  }

  /** The cycle spelled out: STAT, BAR, PIE, LINE, LIST, then STAT again. */
  lemma NextChartTypeTable()
    ensures NextChartType(Stat) == Bar && NextChartType(Bar) == Pie
    ensures NextChartType(Pie) == Line && NextChartType(Line) == List
    ensures NextChartType(List) == Stat
  {
  }

  /** `k` presses of the type button. */
  function CycleTimes(t: ChartType, k: nat): ChartType {
    if k == 0 then t else NextChartType(CycleTimes(t, k - 1))
  }

  /** Stepping a residue modulo 5 is taking the residue of the successor. */
  lemma ModFiveSucc(x: nat)
    ensures (x % 5 + 1) % 5 == (x + 1) % 5
  {
    var q, r := x / 5, x % 5;
    assert x == 5 * q + r;
    if r < 4 {
      assert x + 1 == 5 * q + (r + 1);
    } else {
      assert x + 1 == 5 * (q + 1);
    }
  }

  /** After `k` presses the type sits `k` places further round the table. */
  lemma {:induction false} CycleTimesIndex(t: ChartType, k: nat)
    ensures CycleIndex(CycleTimes(t, k)) == (CycleIndex(t) + k) % 5
  {
    if k > 0 {
      CycleTimesIndex(t, k - 1);
      ModFiveSucc(CycleIndex(t) + k - 1);
    }
  }

  /** Shifting a residue `c < 5` by `k` gives `c` back exactly when `k` is a
      multiple of five. */
  lemma ModFiveShift(c: nat, k: nat)
    requires c < 5
    ensures (c + k) % 5 == c <==> k % 5 == 0
  {
    var q, r := k / 5, k % 5;
    assert c + k == 5 * q + (c + r);
    if c + r < 5 {
      assert (c + k) % 5 == c + r;
    } else {
      assert c + k == 5 * (q + 1) + (c + r - 5);
      assert (c + k) % 5 == c + r - 5;
    }
  }

  /** The cycle has length exactly five: a type comes back after `k` presses
      exactly when `k` is a multiple of five. */
  lemma CyclePeriodIsFive(t: ChartType, k: nat)
    ensures CycleTimes(t, k) == t <==> k % 5 == 0
  {
    CycleTimesIndex(t, k);
    ModFiveShift(CycleIndex(t), k);
  }

  /** `cycleChartType(index)`: the section's type moves one step along the
      cycle; its id, title, descriptions, data and config, every other
      section and every root property stay as they were. */
  function CycleChartType(d: Document, index: nat): (r: Document)
    requires index < |d.sections|
    ensures |r.sections| == |d.sections|
    ensures r.sections[index].chartType == NextChartType(d.sections[index].chartType)
    ensures r.sections[index].(chartType := d.sections[index].chartType) == d.sections[index]
    ensures forall j | 0 <= j < |d.sections| && j != index :: r.sections[j] == d.sections[j]
    ensures forall g: RootField :: RootText(r, g) == RootText(d, g)
    ensures r.sources == d.sources
  {
    var s := d.sections[index];
    UpdateSection(d, index, s.(chartType := NextChartType(s.chartType)))
  }

  /** Five presses of a section's type button give back the same document. */
  lemma CycleFiveTimesIsIdentity(d: Document, index: nat)
    requires index < |d.sections|
    ensures CycleChartType(CycleChartType(CycleChartType(CycleChartType(CycleChartType(
      d, index), index), index), index), index) == d
  {
    var t := d.sections[index].chartType;
    CyclePeriodIsFive(t, 5);
    assert CycleTimes(t, 5) == NextChartType(NextChartType(NextChartType(NextChartType(NextChartType(t)))));
  }

  // ---------------------------------------------------------------------------
  // Layout

  /** Whether a section takes the full row of the two-column grid: LINE
      always, BAR above six points, STAT above three. */
  function ShouldSpanFull(s: Section): (r: bool)
    ensures r <==> (|| s.chartType == Line
                    || (s.chartType == Bar && |s.data| > 6)
                    || (s.chartType == Stat && |s.data| > 3))
  {
    if s.chartType == Line then true
    else if s.chartType == Bar && |s.data| > 6 then true
    else if s.chartType == Stat && |s.data| > 3 then true
    else false
  }

  /** The layout depends on the type and the number of points only. */
  lemma SpanDependsOnTypeAndCount(s: Section, t: Section)
    requires s.chartType == t.chartType && |s.data| == |t.data|
    ensures ShouldSpanFull(s) == ShouldSpanFull(t)
  {
  }

  /** More points never shrink a section back to half width. */
  lemma SpanMonotoneInCount(s: Section, t: Section)
    requires s.chartType == t.chartType && |s.data| <= |t.data|
    requires ShouldSpanFull(s)
    ensures ShouldSpanFull(t)
  {
  }

  /** PIE and LIST sections never span the full row. */
  lemma PieAndListAreHalfWidth(s: Section)
    requires s.chartType == Pie || s.chartType == List
    ensures !ShouldSpanFull(s)
  {
  }

  // ---------------------------------------------------------------------------
  // Data points

  /** `isNaN(num) ? 0 : num` with `num = parseFloat(raw.replace(/,/g, ''))`:
      the number typed into a value field, 0 when it is not a number. */
  function ValueFromInput(raw: string): (v: real)
    ensures ParseFloat(StripCommas(raw)).None? ==> v == 0.0
    ensures ParseFloat(StripCommas(raw)).Some? ==> v == ParseFloat(StripCommas(raw)).value
  {
    ParseFloat(StripCommas(raw)).GetOr(0.0)
  }

  /** Thousands separators are ignored: typing the text with its commas
      removed gives the same number. */
  lemma ValueIgnoresCommas(raw: string)
    ensures ValueFromInput(raw) == ValueFromInput(StripCommas(raw))
  {
    StripCommasIdempotent(raw);
  }

  /** Input with no digit at all is stored as 0. */
  lemma ValueWithoutDigitsIsZero(raw: string)
    requires forall i | 0 <= i < |raw| :: !IsDigit(raw[i])
    ensures ValueFromInput(raw) == 0.0
  {
    var s := StripCommas(raw);
    forall i | 0 <= i < |s|
      ensures !IsDigit(s[i])
    {
      StripCommasKeepsOnly(raw, s[i]);
    }
    NoDigitIsNaN(s);
  }

  /** A rendered whole number is read back as itself. */
  lemma ValueOfDecimalString(n: nat)
    ensures ValueFromInput(DecimalString(n)) == n as real
  {
    DigitsHaveNoComma(DecimalString(n));
    StripCommasOfNoComma(DecimalString(n));
    ParseFloatDecimalString(n);
  }

  /** A whole number shown with group separators is read back as itself,
      which is what stripping the commas is for. */
  lemma ValueOfGroupedNumber(n: nat)
    ensures ValueFromInput(GroupThousands(n)) == n as real
  {
    StripCommasGroupThousands(n);
    DigitsHaveNoComma(DecimalString(n));
    StripCommasOfNoComma(DecimalString(n));
    ParseFloatDecimalString(n);
  }

  /** The data-point properties an editor can write. */
  datatype PointField = NameField | ValueField | LabelField

  /** `{ ...point, [field]: ... }`: a value edit stores the parsed number, a
      name or label edit stores the raw text verbatim; the other two
      properties are kept. */
  function EditPoint(p: DataPoint, f: PointField, raw: string): (q: DataPoint)
    ensures q.name == (if f == NameField then raw else p.name)
    ensures q.value == (if f == ValueField then ValueFromInput(raw) else p.value)
    ensures q.labelText == (if f == LabelField then Some(raw) else p.labelText)
  {
    match f
    case NameField => p.(name := raw)
    case ValueField => p.(value := ValueFromInput(raw))
    case LabelField => p.(labelText := Some(raw))
  }

  /** `newData[index] = { ...newData[index], ... }` on a copy of the data:
      the point at `index` gets the edit, all other points are kept. */
  function EditData(data: seq<DataPoint>, index: nat, f: PointField, raw: string): (r: seq<DataPoint>)
    requires index < |data|
    ensures |r| == |data|
    ensures r[index] == EditPoint(data[index], f, raw)
    ensures forall j | 0 <= j < |data| && j != index :: r[j] == data[j]
  {
    data[index := EditPoint(data[index], f, raw)]
  }

  /** The chart data editor's `handleChange`, whose field is a name or a
      value: labels are never touched. */
  function ChartEditorChange(data: seq<DataPoint>, index: nat, f: PointField, raw: string): (r: seq<DataPoint>)
    requires index < |data|
    requires f != LabelField
    ensures |r| == |data|
    ensures forall j | 0 <= j < |data| :: r[j].labelText == data[j].labelText
    ensures forall j | 0 <= j < |data| && j != index :: r[j] == data[j]
    ensures f == NameField ==> r[index].name == raw && r[index].value == data[index].value
    ensures f == ValueField ==> r[index].value == ValueFromInput(raw) && r[index].name == data[index].name
  {
    EditData(data, index, f, raw)
  }

  /** The stat card's `handleItemUpdate` (name, value or label): the section
      keeps everything but the edited point. */
  function StatItemUpdate(s: Section, index: nat, f: PointField, raw: string): (r: Section)
    requires index < |s.data|
    ensures r.(data := s.data) == s
    ensures |r.data| == |s.data|
    ensures r.data[index] == EditPoint(s.data[index], f, raw)
    ensures forall j | 0 <= j < |s.data| && j != index :: r.data[j] == s.data[j]
  {
    s.(data := EditData(s.data, index, f, raw))
  }

  /** The list section's `handleItemUpdate`, whose field is a name or a
      label: values are never touched. */
  function ListItemUpdate(s: Section, index: nat, f: PointField, raw: string): (r: Section)
    requires index < |s.data|
    requires f != ValueField
    ensures r.(data := s.data) == s
    ensures |r.data| == |s.data|
    ensures forall j | 0 <= j < |s.data| :: r.data[j].value == s.data[j].value
    ensures forall j | 0 <= j < |s.data| && j != index :: r.data[j] == s.data[j]
    ensures f == NameField ==> r.data[index].name == raw && r.data[index].labelText == s.data[index].labelText
    ensures f == LabelField ==> r.data[index].labelText == Some(raw) && r.data[index].name == s.data[index].name
  {
    s.(data := EditData(s.data, index, f, raw))
  }

  /** The point the data editor's add button appends. */
  const NewPoint: DataPoint := DataPoint("ข้อมูลใหม่", 10.0, None)

  /** `handleAdd`: one more point at the end, the others kept in order. */
  function AddPoint(data: seq<DataPoint>): (r: seq<DataPoint>)
    ensures |r| == |data| + 1
    ensures r[..|data|] == data
    ensures r[|data|].name == "ข้อมูลใหม่" && r[|data|].value == 10.0 && r[|data|].labelText.None?
  {
    data + [NewPoint]
  }

  /** `handleDelete`: `data.filter((_, i) => i !== index)`. */
  function DeletePoint(data: seq<DataPoint>, index: int): (r: seq<DataPoint>)
    ensures 0 <= index < |data| ==> |r| == |data| - 1 && r == data[..index] + data[index + 1..]
    ensures !(0 <= index < |data|) ==> r == data
  {
    Without(data, index)
  }

  /** Deleting the point just added restores the data. */
  lemma DeleteUndoesAdd(data: seq<DataPoint>)
    ensures DeletePoint(AddPoint(data), |data|) == data
  {
    WithoutLastOfAppend(data, NewPoint);
  }

  /** The data editor's `onUpdate`: `updateSection(index, { ...section, data: newData })`. */
  function SetSectionData(d: Document, index: nat, data: seq<DataPoint>): (r: Document)
    requires index < |d.sections|
    ensures |r.sections| == |d.sections|
    ensures r.sections[index].data == data
    ensures r.sections[index].(data := d.sections[index].data) == d.sections[index]
    ensures forall j | 0 <= j < |d.sections| && j != index :: r.sections[j] == d.sections[j]
    ensures forall g: RootField :: RootText(r, g) == RootText(d, g)
    ensures r.sources == d.sources
  {
    UpdateSection(d, index, d.sections[index].(data := data))
  }

  /** Editing one point of one section through the document: exactly the
      point at `(si, pi)` changes, and only in the edited property. */
  lemma PointEditFrame(d: Document, si: nat, pi: nat, f: PointField, raw: string)
    requires si < |d.sections| && pi < |d.sections[si].data|
    ensures var r := SetSectionData(d, si, EditData(d.sections[si].data, pi, f, raw));
      && |r.sections| == |d.sections|
      && (forall i, j | 0 <= i < |d.sections| && 0 <= j < |d.sections[i].data| && (i, j) != (si, pi) ::
            j < |r.sections[i].data| && r.sections[i].data[j] == d.sections[i].data[j])
      && r.sections[si].data[pi] == EditPoint(d.sections[si].data[pi], f, raw)
  {
  }

  // ---------------------------------------------------------------------------
  // Sources and ids across edits

  /** The sources line: shown only when sources are present and non-empty. */
  function ShownSources(d: Document): (r: Option<seq<Source>>)
    ensures r.Some? <==> d.sources.Some? && |d.sources.value| > 0
    ensures r.Some? ==> r.value == d.sources.value
  {
    match d.sources
    case Some(list) => if |list| > 0 then Some(list) else None
    case None => None
  }

  /** Every renderer edit leaves the sources line as it was: only a document
      from outside (generated, rewritten or a template) can change it. */
  lemma EditsKeepShownSources(d: Document, f: RootField, v: string, index: nat, s: Section, now: nat, k: int)
    requires index < |d.sections|
    ensures ShownSources(UpdateRoot(d, f, v)) == ShownSources(d)
    ensures ShownSources(UpdateSection(d, index, s)) == ShownSources(d)
    ensures ShownSources(AddSection(d, now)) == ShownSources(d)
    ensures ShownSources(RemoveSection(d, k)) == ShownSources(d)
  {
  }

  /** Cycling a type or editing text or data keeps every section id, so the
      ids stay unique. */
  lemma InPlaceEditsKeepIds(d: Document, index: nat, s: Section)
    requires index < |d.sections|
    requires s.id == d.sections[index].id
    ensures SectionIds(UpdateSection(d, index, s).sections) == SectionIds(d.sections)
    ensures UniqueIds(d.sections) ==> UniqueIds(UpdateSection(d, index, s).sections)
  {
    var r := UpdateSection(d, index, s).sections;
    assert forall i | 0 <= i < |r| :: r[i].id == d.sections[i].id;
  }
}
