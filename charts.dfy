/** plot_series_safe, the chart helper of the two dashboards, reduced to
    the description of the figure it draws. */
module Charts {
  import opened Common
  import opened Series

  /** A drawn figure: the "no data" placeholder (a centred message under
      the title, with the axes hidden) or a plot of the series. */
  datatype Chart<K> =
    | Placeholder(title: string, message: string)
    | Plot(kind: string, title: string, data: Series<K>, markers: bool)

  /** The placeholder text of dashboard-12345.py. */
  const NoDataSales: string := "Sem dados"
  /** The placeholder text of dashboard-678910.py. */
  const NoDataPartners: string := "Sem dados disponíveis"

  /** A series worth plotting: present and with at least one entry. */
  predicate HasData<K>(s: Option<Series<K>>)
  {
    s.Some? && |s.value| > 0
  }

  /** The helper of dashboard-12345.py: a missing or empty series gives the
      placeholder; otherwise horizontal bars when asked for either way, and
      vertical bars for every other kind. */
  function PlotSales<K>(s: Option<Series<K>>, kind: string, title: string, horizontal: bool): (c: Chart<K>)
    ensures c.title == title
    ensures c.Placeholder? <==> !HasData(s)
    ensures c.Placeholder? ==> c.message == NoDataSales
    ensures c.Plot? ==> c.data == s.value && !c.markers
    ensures c.Plot? ==> (c.kind == "barh" <==> horizontal || kind == "barh")
    ensures c.Plot? ==> (c.kind == "bar" <==> !horizontal && kind != "barh")
  {
    if HasData(s) then
      Plot(if horizontal || kind == "barh" then "barh" else "bar", title, s.value, false)
    else
      Placeholder(title, NoDataSales)
  }

  /** The helper of dashboard-678910.py: the same placeholder rule with its
      own message; horizontal bars take precedence, then a line with point
      markers, and any other kind is drawn as given. */
  function PlotPartners<K>(s: Option<Series<K>>, kind: string, title: string, horizontal: bool): (c: Chart<K>)
    ensures c.title == title
    ensures c.Placeholder? <==> !HasData(s)
    ensures c.Placeholder? ==> c.message == NoDataPartners
    ensures c.Plot? ==> c.data == s.value
    ensures c.Plot? ==> (c.kind == "barh" <==> horizontal || kind == "barh")
    ensures c.Plot? ==> (c.markers <==> c.kind == "line")
    ensures c.Plot? && !horizontal && kind != "barh" ==> c.kind == kind
  {
    if HasData(s) then
      if horizontal || kind == "barh" then Plot("barh", title, s.value, false)
      else if kind == "line" then Plot("line", title, s.value, true)
      else Plot(kind, title, s.value, false)
    else
      Placeholder(title, NoDataPartners)
  }

  /** For the bar charts both dashboards ask for, the two helpers draw the
      same figure; they differ only in the placeholder's message. */
  lemma HelpersAgree<K>(s: Option<Series<K>>, kind: string, title: string, horizontal: bool)
    requires kind == "bar" || kind == "barh" || horizontal
    ensures PlotSales(s, kind, title, horizontal).Plot? == PlotPartners(s, kind, title, horizontal).Plot?
    ensures HasData(s) ==> PlotSales(s, kind, title, horizontal) == PlotPartners(s, kind, title, horizontal)
    ensures !HasData(s) ==>
      PlotSales(s, kind, title, horizontal).(message := NoDataPartners) == PlotPartners(s, kind, title, horizontal)
  {
  }
}
