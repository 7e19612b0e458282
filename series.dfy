/**
  The fifteen gauge series the collector keeps, one per metric name of the
  BOSH Health Monitor's TSDB stream that it recognises, and the dispatch of a
  metric name to its series.
 */
module Series {
  import opened Wrappers

  datatype Series =
    | Healthy
    | LoadAvg01
    | CpuSys
    | CpuUser
    | CpuWait
    | MemKB
    | MemPercent
    | SwapKB
    | SwapPercent
    | SystemDiskInodePercent
    | SystemDiskPercent
    | EphemeralDiskInodePercent
    | EphemeralDiskPercent
    | PersistentDiskInodePercent
    | PersistentDiskPercent

  /** Every series, the domain of the collector's gauge table. */
  const AllSeries: set<Series> := {
    Healthy, LoadAvg01, CpuSys, CpuUser, CpuWait, MemKB, MemPercent, SwapKB, SwapPercent,
    SystemDiskInodePercent, SystemDiskPercent, EphemeralDiskInodePercent, EphemeralDiskPercent,
    PersistentDiskInodePercent, PersistentDiskPercent
  }

  lemma AllSeriesComplete(s: Series)
    ensures s in AllSeries
  {
  }

  /** The metric name that feeds series `s`. */
  function NameOf(s: Series): string
  {
    match s
    case Healthy => "system.healthy"
    case LoadAvg01 => "system.load.1m"
    case CpuSys => "system.cpu.sys"
    case CpuUser => "system.cpu.user"
    case CpuWait => "system.cpu.wait"
    case MemKB => "system.mem.kb"
    case MemPercent => "system.mem.percent"
    case SwapKB => "system.swap.kb"
    case SwapPercent => "system.swap.percent"
    case SystemDiskInodePercent => "system.disk.system.inode_percent"
    case SystemDiskPercent => "system.disk.system.percent"
    case EphemeralDiskInodePercent => "system.disk.ephemeral.inode_percent"
    case EphemeralDiskPercent => "system.disk.ephemeral.percent"
    case PersistentDiskInodePercent => "system.disk.persistent.inode_percent"
    case PersistentDiskPercent => "system.disk.persistent.percent"
  }

  /**
    The switch on the metric name: the series a name feeds, or None for a
    name the collector does not support (the line is then discarded). A name
    is recognised only if it is exactly the name of the series it selects.
   */
  function SeriesOf(name: string): (r: Option<Series>)
    ensures r.Some? ==> NameOf(r.value) == name
  {
    if name == "system.healthy" then Some(Healthy)
    else if name == "system.load.1m" then Some(LoadAvg01)
    else if name == "system.cpu.sys" then Some(CpuSys)
    else if name == "system.cpu.user" then Some(CpuUser)
    else if name == "system.cpu.wait" then Some(CpuWait)
    else if name == "system.mem.kb" then Some(MemKB)
    else if name == "system.mem.percent" then Some(MemPercent)
    else if name == "system.swap.kb" then Some(SwapKB)
    else if name == "system.swap.percent" then Some(SwapPercent)
    else if name == "system.disk.system.inode_percent" then Some(SystemDiskInodePercent)
    else if name == "system.disk.system.percent" then Some(SystemDiskPercent)
    else if name == "system.disk.ephemeral.inode_percent" then Some(EphemeralDiskInodePercent)
    else if name == "system.disk.ephemeral.percent" then Some(EphemeralDiskPercent)
    else if name == "system.disk.persistent.inode_percent" then Some(PersistentDiskInodePercent)
    else if name == "system.disk.persistent.percent" then Some(PersistentDiskPercent)
    else None
  }

  /** Every series is reachable: its own name selects it. */
  lemma SeriesOfNameOf(s: Series)
    ensures SeriesOf(NameOf(s)) == Some(s)
  {
  }

  /** A name is recognised exactly when it is the name of some series. */
  lemma SeriesOfRecognised(name: string)
    ensures SeriesOf(name).Some? <==> exists s :: NameOf(s) == name
  {
    if exists s :: NameOf(s) == name {
      var s :| NameOf(s) == name;
      SeriesOfNameOf(s);
    }
  }
}
