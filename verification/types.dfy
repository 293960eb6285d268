/**
 The infographic document schema: chart types, data points, sections and the
 document itself, with the optional properties as `Option`s.
 */
module Types {
  import opened Wrappers

  /** The five visualisations a section can use; closed, as the enum is. */
  datatype ChartType = Bar | Pie | Line | Stat | List

  /** Every chart type, in declaration order. */
  const AllChartTypes: seq<ChartType> := [Bar, Pie, Line, Stat, List]

  /** The string each enum member stands for in JSON and on the type button. */
  function Tag(t: ChartType): string {
    match t
    case Bar => "bar"
    case Pie => "pie"
    case Line => "line"
    case Stat => "stat"
    case List => "list"
  }

  /** The chart type a string names, if any. */
  function ChartTypeFromTag(s: string): (r: Option<ChartType>)
    ensures r.Some? ==> Tag(r.value) == s
  {
    if s == "bar" then Some(Bar)
    else if s == "pie" then Some(Pie)
    else if s == "line" then Some(Line)
    else if s == "stat" then Some(Stat)
    else if s == "list" then Some(List)
    else None
  }

  /** Exactly five chart types, all distinct, and nothing else. */
  lemma ChartTypeIsClosed(t: ChartType)
    ensures |AllChartTypes| == 5
    ensures t in AllChartTypes
    ensures forall i, j | 0 <= i < j < |AllChartTypes| :: AllChartTypes[i] != AllChartTypes[j]
  {
  }

  /** Tags and chart types are in one-to-one correspondence. */
  lemma TagRoundTrip(t: ChartType, s: string)
    ensures ChartTypeFromTag(Tag(t)) == Some(t)
    ensures ChartTypeFromTag(s) == Some(t) <==> s == Tag(t)
  {
  }

  /** One datum: `value` is always a number; the optional `label` property
      (`labelText`, since `label` is a Dafny keyword) may be absent. */
  datatype DataPoint = DataPoint(name: string, value: real, labelText: Option<string>)

  datatype Layout = Horizontal | Vertical

  /** Optional per-section rendering hints. */
  datatype SectionConfig = SectionConfig(color: Option<string>, layout: Option<Layout>)

  /** One visual block: a chart type and its ordered data, possibly empty. */
  datatype Section = Section(
    id: string,
    chartType: ChartType,
    title: string,
    description: Option<string>,
    chartDescription: Option<string>,
    data: seq<DataPoint>,
    config: Option<SectionConfig>)

  /** A citation attached to a generated document. */
  datatype Source = Source(title: string, uri: string)

  /** The whole infographic. `sources` is not part of the declared interface,
      but the renderer reads it, so the model carries it. */
  datatype Document = Document(
    title: string,
    subtitle: string,
    themeColor: string,
    backgroundColor: string,
    sections: seq<Section>,
    footer: Option<string>,
    sources: Option<seq<Source>>)

  /** The section ids in display order. */
  function SectionIds(sections: seq<Section>): (ids: seq<string>)
    ensures |ids| == |sections|
    ensures forall i | 0 <= i < |sections| :: ids[i] == sections[i].id
  {
    if sections == [] then [] else [sections[0].id] + SectionIds(sections[1..])
  }

  /** No two sections share an id (they serve as the sections' keys). */
  predicate UniqueIds(sections: seq<Section>) {
    forall i, j | 0 <= i < j < |sections| :: sections[i].id != sections[j].id
  }
}
