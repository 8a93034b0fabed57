/** The two controllers that turn a compute node's memory reading, text of the
    form "447/15360MB", into numbers: the GPU listing falls back to zeros on
    any malformed reading, the resource listing has no fallback and fails. */
module MemoryReadings {
  import opened Common
  import opened Strings

  /** `ResourceStatus`. */
  datatype ResourceStatus = Available | Busy | Offline

  /** The part of a `ResourceDetail` the controllers read: the memory
      reading is handled as text, possibly absent. */
  datatype ResourceDetail = ResourceDetail(id: int, name: string, status: ResourceStatus, memoryUsed: Option<string>)

  /** `GpuResourceResponse`. */
  datatype GpuResource = GpuResource(id: int, name: string, status: ResourceStatus, memoryUsed: int, memoryTotal: int, memoryFree: int)

  /** `ResourceResponse`: no free-memory figure. */
  datatype ResourceView = ResourceView(id: int, name: string, status: ResourceStatus, memoryUsed: int, memoryTotal: int)

  /** A used and a total figure, in megabytes. */
  datatype Reading = Reading(used: int, total: int)

  /** The shared parse: remove "MB", split on "/", trim the first two parts
      and parse each as an `int`. `None` where Java throws: fewer than two
      parts, or a part that is not an `int`. */
  function ParseReading(text: string): (r: Option<Reading>)
    ensures r.Some? ==> IsInt32(r.value.used) && IsInt32(r.value.total)
  {
    var parts := Split(RemoveAll(text, "MB"), '/');
    if |parts| < 2 then None
    else
      match (ParseInt(Trim(parts[0])), ParseInt(Trim(parts[1])))
      case (Some(used), Some(total)) => Some(Reading(used, total))
      case _ => None
  }

  /** `convertToGpuResourceResponse`: id, name and status are copied; a
      reading without "/", an absent one, or one that does not parse gives
      zeros; otherwise free is total minus used in `int` arithmetic, with no
      check that used is at most total. */
  function ToGpuResource(d: ResourceDetail): (g: GpuResource)
    ensures g.id == d.id && g.name == d.name && g.status == d.status
    ensures d.memoryUsed.None? || '/' !in d.memoryUsed.value || ParseReading(d.memoryUsed.value).None? ==>
      g.memoryUsed == 0 && g.memoryTotal == 0 && g.memoryFree == 0
    ensures d.memoryUsed.Some? && '/' in d.memoryUsed.value && ParseReading(d.memoryUsed.value).Some? ==>
      var m := ParseReading(d.memoryUsed.value).value;
      g.memoryUsed == m.used && g.memoryTotal == m.total && g.memoryFree == Int32Sub(m.total, m.used)
  {
    if d.memoryUsed.Some? && '/' in d.memoryUsed.value then
      match ParseReading(d.memoryUsed.value)
      case Some(m) => GpuResource(d.id, d.name, d.status, m.used, m.total, Int32Sub(m.total, m.used))
      case None => GpuResource(d.id, d.name, d.status, 0, 0, 0)
    else GpuResource(d.id, d.name, d.status, 0, 0, 0)
  }

  /** `convertToResourceResponse`: the same parse without a fallback; an
      absent or malformed reading fails the request. */
  function ToResourceView(d: ResourceDetail): (r: Result<ResourceView>)
    ensures r.Err? <==> d.memoryUsed.None? || ParseReading(d.memoryUsed.value).None?
    ensures r.Err? ==> r.error == InternalServerError
    ensures r.Ok? ==>
      var m := ParseReading(d.memoryUsed.value).value;
      r.value == ResourceView(d.id, d.name, d.status, m.used, m.total)
  {
    if d.memoryUsed.None? then Err(InternalServerError)
    else
      match ParseReading(d.memoryUsed.value)
      case Some(m) => Ok(ResourceView(d.id, d.name, d.status, m.used, m.total))
      case None => Err(InternalServerError)
  }

  /** The text a node reports for a reading. */
  function ReadingText(used: nat, total: nat): string {
    Decimal(used) + "/" + Decimal(total) + "MB"
  }

  /** Digits hold no slash and no 'M', and trimming leaves them as they
      are. */
  lemma DigitText(u: string)
    requires |u| > 0 && forall i :: 0 <= i < |u| ==> IsDigit(u[i])
    ensures '/' !in u && 'M' !in u && Trim(u) == u
  {
    assert forall c :: c in u ==> IsDigit(c);
    assert u[0] > ' ' && u[|u| - 1] > ' ';
  }

  /** Removing the unit from "<u>/<t>MB" leaves "<u>/<t>". */
  lemma UnitRemoved(u: string, t: string)
    requires 'M' !in u && 'M' !in t
    ensures RemoveAll(u + "/" + t + "MB", "MB") == u + "/" + t
  {
    var body := u + "/" + t;
    assert 'M' !in "/";
    assert 'M' !in body;
    RemoveTrailing(body, "MB");
  }

  /** "<u>/<t>" splits on '/' into its two figures. */
  lemma FiguresSplit(u: string, t: string)
    requires |t| > 0 && '/' !in u && '/' !in t
    ensures Split(u + "/" + t, '/') == [u, t]
  {
    var body := u + "/" + t;
    assert body == u + ['/'] + t;
    PiecesAtFirstDelimiter(u, '/', t);
    PiecesWithoutDelimiter(t, '/');
    assert '/' in body by { assert body[|u|] == '/'; }
  }

  /** The reported text parses back to the figures it was written from, for
      every pair of non-negative `int` figures. */
  lemma ParseReadingText(used: nat, total: nat)
    requires used <= IntMax && total <= IntMax
    ensures ParseReading(ReadingText(used, total)) == Some(Reading(used, total))
  {
    var u, t := Decimal(used), Decimal(total);
    DigitText(u);
    DigitText(t);
    UnitRemoved(u, t);
    FiguresSplit(u, t);
    ParseDecimal(used);
    ParseDecimal(total);
  }

  /** A well-formed reading gives the GPU listing its figures, with free
      memory negative exactly when more is used than exists. */
  lemma GpuFiguresFromReading(d: ResourceDetail, used: nat, total: nat)
    requires used <= IntMax && total <= IntMax
    requires d.memoryUsed == Some(ReadingText(used, total))
    ensures ToGpuResource(d).memoryUsed == used && ToGpuResource(d).memoryTotal == total
    ensures ToGpuResource(d).memoryFree == total - used
    ensures ToGpuResource(d).memoryFree < 0 <==> used > total
    ensures ToResourceView(d) == Ok(ResourceView(d.id, d.name, d.status, used, total))
  {
    ParseReadingText(used, total);
    assert ReadingText(used, total)[|Decimal(used)|] == '/';
  }
}
