/**
  What the session shows, and how the watcher reads it. The served repositories and the
  stored preferences have locks of their own; the focused repository is worked out from
  both, by looking the stored path up among the served ones and falling back to the first.
 */
module Session {
  import opened Bytes

  datatype Entry = Entry(id: nat, path: nat)

  type Catalog = seq<Entry>

  /** The id standing for a path, if it is served. */
  function IdOf(c: Catalog, path: nat): Option<nat> {
    if c == [] then None
    else if c[0].path == path then Some(c[0].id)
    else IdOf(c[1..], path)
  }

  function FirstId(c: Catalog): Option<nat> {
    if c == [] then None else Some(c[0].id)
  }

  function IdOfStored(c: Catalog, stored: Option<nat>): Option<nat> {
    if stored.None? then None else IdOf(c, stored.value)
  }

  /** The repository in front. */
  function Focus(c: Catalog, stored: Option<nat>): Option<nat> {
    if IdOfStored(c, stored).Some? then IdOfStored(c, stored) else FirstId(c)
  }

  /** What a set tells a client. */
  datatype Shown = Shown(list: Catalog, focus: Option<nat>, accent: nat)

  /** A moment of the session, by which value each of its three variables had. */
  datatype Moment = Moment(catalog: nat, stored: nat, accent: nat)

  /** Every value each variable has had, the last one current, and every moment in order. */
  datatype History = History(
    catalogs: seq<Catalog>,
    stored: seq<Option<nat>>,
    accents: seq<nat>,
    moments: seq<Moment>)

  ghost predicate NonEmpty(h: History) {
    h.catalogs != [] && h.stored != [] && h.accents != []
  }

  ghost function Present(h: History): Moment
    requires NonEmpty(h)
  {
    Moment(|h.catalogs| - 1, |h.stored| - 1, |h.accents| - 1)
  }

  ghost predicate Happened(h: History, m: Moment) {
    m.catalog < |h.catalogs| && m.stored < |h.stored| && m.accent < |h.accents|
  }

  /** What the session showed at a moment. */
  ghost function ShownAt(h: History, m: Moment): Shown
    requires Happened(h, m)
  {
    Shown(h.catalogs[m.catalog], Focus(h.catalogs[m.catalog], h.stored[m.stored]), h.accents[m.accent])
  }

  /** The session has entered the moment its variables now make. */
  ghost function Entered(h: History): History
    requires NonEmpty(h)
  {
    h.(moments := h.moments + [Present(h)])
  }

  // ------------------------------------------------------------- reading it

  /**
    Which values a set was read from: the list, the stored focus, the catalog the stored
    path was looked up in, the catalog the first repository came from, the accent. A read
    that is not made counts as made with the one that decides the focus.
   */
  datatype Stamp = Stamp(list: nat, stored: nat, lookup: nat, first: nat, accent: nat)

  ghost predicate InRange(h: History, t: Stamp) {
    && t.list < |h.catalogs| && t.lookup < |h.catalogs| && t.first < |h.catalogs|
    && t.stored < |h.stored| && t.accent < |h.accents|
  }

  /** The focus those reads give. */
  ghost function FocusRead(h: History, t: Stamp): Option<nat>
    requires InRange(h, t)
  {
    var found := IdOfStored(h.catalogs[t.lookup], h.stored[t.stored]);
    if found.Some? then found else FirstId(h.catalogs[t.first])
  }

  /** What a set read from those values says. */
  ghost function ValueAt(h: History, t: Stamp): Shown
    requires InRange(h, t)
  {
    Shown(h.catalogs[t.list], FocusRead(h, t), h.accents[t.accent])
  }

  /** The set read while nothing moves. */
  ghost function Latest(h: History): Stamp
    requires NonEmpty(h)
  {
    var now := Present(h);
    Stamp(now.catalog, now.stored, now.catalog, now.catalog, now.accent)
  }

  /** The watcher's reads, each under a lock of its own. */
  datatype Read = ReadList | ReadStored | ReadLookup | ReadFirst | ReadAccent

  /** A set after one more read, and the read that follows. */
  datatype Progress = Progress(stamp: Stamp, next: Option<Read>)

  ghost function ReadOne(h: History, t: Stamp, r: Read): (p: Progress)
    requires NonEmpty(h) && InRange(h, t)
    ensures InRange(h, p.stamp)
  {
    var now := Present(h);
    match r
    case ReadList => Progress(t.(list := now.catalog), Some(ReadStored))
    case ReadStored =>
      Progress(t.(stored := now.stored), Some(if h.stored[now.stored].Some? then ReadLookup else ReadFirst))
    case ReadLookup =>
      if IdOfStored(h.catalogs[now.catalog], h.stored[t.stored]).Some?
      then Progress(t.(lookup := now.catalog, first := now.catalog), Some(ReadAccent))
      else Progress(t.(lookup := now.catalog), Some(ReadFirst))
    case ReadFirst =>
      Progress(if h.stored[t.stored].Some? then t.(first := now.catalog)
               else t.(lookup := now.catalog, first := now.catalog),
               Some(ReadAccent))
    case ReadAccent => Progress(t.(accent := now.accent), None)
  }

  /** All the reads were of one and the same moment. */
  ghost predicate OneMoment(h: History, t: Stamp) {
    t.list == t.lookup == t.first && Moment(t.list, t.stored, t.accent) in h.moments
  }

  /** Such a set says what the session showed then. */
  lemma OneMomentShows(h: History, t: Stamp)
    requires InRange(h, t) && OneMoment(h, t)
    ensures ValueAt(h, t) == ShownAt(h, Moment(t.list, t.stored, t.accent))
  {
  }

  /**
    The focus that is read: looked up once if a path is stored, among what is served at that
    moment; and if there is none or it was not found then, the first of what is served a
    moment later, even if the path is served again by then.
   */
  lemma FocusIsReadInSteps(h: History, t: Stamp)
    requires NonEmpty(h) && InRange(h, t)
    ensures var served := h.catalogs[|h.catalogs| - 1];
            && (ReadOne(h, t, ReadStored).next
                == Some(if h.stored[|h.stored| - 1] == None then ReadFirst else ReadLookup))
            && (h.stored[t.stored].Some? ==>
                var found, p := IdOf(served, h.stored[t.stored].value), ReadOne(h, t, ReadLookup);
                && p.next == Some(if found.Some? then ReadAccent else ReadFirst)
                && (found.Some? ==> FocusRead(h, p.stamp) == found))
            && (h.stored[t.stored].None? || IdOf(h.catalogs[t.lookup], h.stored[t.stored].value).None? ==>
                FocusRead(h, ReadOne(h, t, ReadFirst).stamp) == if served == [] then None else Some(served[0].id))
  {
  }
}
