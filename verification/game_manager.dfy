/** `GameManager` (utils/manager.py): per-group round state kept in three
    maps, idle flag, winner and round data. A winner above zero is the user
    who guessed right, zero means undecided and a negative value is an error
    code such as the time limit. Deep copies give the data value semantics,
    which Dafny values have anyway. */
module GameManager {
  import opened Wrappers

  datatype Manager<D> = Manager(idle: map<int, bool>, winner: map<int, int>, data: map<int, Option<D>>)

  /** A manager no group has touched yet. */
  function Empty<D>(): Manager<D> {
    Manager(map[], map[], map[])
  }

  /** `is_idle(gid)`: true for a group never started. */
  function IsIdle<D>(m: Manager<D>, gid: int): bool {
    if gid in m.idle then m.idle[gid] else true
  }

  /** `get_winner(gid)`: 0 for a group never started. */
  function GetWinner<D>(m: Manager<D>, gid: int): int {
    if gid in m.winner then m.winner[gid] else 0
  }

  /** `get_data(gid)`: `None` until data is set. */
  function GetData<D>(m: Manager<D>, gid: int): Option<D> {
    if gid in m.data then m.data[gid] else None
  }

  /** `is_data_set(gid)`: the stored data is not `None`. */
  predicate IsDataSet<D>(m: Manager<D>, gid: int) {
    GetData(m, gid).Some?
  }

  /** Everything a caller can observe about group `g` is the same in both managers. */
  ghost predicate SameAt<D>(m: Manager<D>, m': Manager<D>, g: int) {
    IsIdle(m, g) == IsIdle(m', g) && GetWinner(m, g) == GetWinner(m', g) && GetData(m, g) == GetData(m', g)
  }

  /** Only group `gid` may differ. */
  ghost predicate OthersUnchanged<D>(m: Manager<D>, m': Manager<D>, gid: int) {
    forall g :: g != gid ==> SameAt(m, m', g)
  }

  /** Changes confined to one group compose. */
  lemma OthersUnchangedTrans<D>(a: Manager<D>, b: Manager<D>, c: Manager<D>, gid: int)
    requires OthersUnchanged(a, b, gid) && OthersUnchanged(b, c, gid)
    ensures OthersUnchanged(a, c, gid)
  {
    forall g | g != gid
      ensures SameAt(a, c, g)
    {
      assert SameAt(a, b, g) && SameAt(b, c, g);
    }
  }

  /** A group never touched is idle, undecided and without data. */
  lemma Untouched<D>(gid: int)
    ensures IsIdle(Empty<D>(), gid) && GetWinner(Empty<D>(), gid) == 0 && !IsDataSet(Empty<D>(), gid)
  {
  }

  /** `start(gid)`: busy, undecided, data cleared. */
  function Start<D>(m: Manager<D>, gid: int): (r: Manager<D>)
    ensures !IsIdle(r, gid) && GetWinner(r, gid) == 0 && !IsDataSet(r, gid)
    ensures OthersUnchanged(m, r, gid)
  {
    Manager(m.idle[gid := false], m.winner[gid := 0], m.data[gid := None])
  }

  /** `win(gid, winner)`: the winner is overwritten, whatever it was. */
  function Win<D>(m: Manager<D>, gid: int, w: int): (r: Manager<D>)
    ensures GetWinner(r, gid) == w
    ensures IsIdle(r, gid) == IsIdle(m, gid) && GetData(r, gid) == GetData(m, gid)
    ensures OthersUnchanged(m, r, gid)
  {
    Manager(m.idle, m.winner[gid := w], m.data)
  }

  /** `finish(gid)`: idle again; the winner and the data are kept. */
  function Finish<D>(m: Manager<D>, gid: int): (r: Manager<D>)
    ensures IsIdle(r, gid)
    ensures GetWinner(r, gid) == GetWinner(m, gid) && GetData(r, gid) == GetData(m, gid)
    ensures OthersUnchanged(m, r, gid)
  {
    Manager(m.idle[gid := true], m.winner, m.data)
  }

  /** `set_data(gid, data)`. */
  function SetData<D>(m: Manager<D>, gid: int, d: D): (r: Manager<D>)
    ensures GetData(r, gid) == Some(d)
    ensures IsIdle(r, gid) == IsIdle(m, gid) && GetWinner(r, gid) == GetWinner(m, gid)
    ensures OthersUnchanged(m, r, gid)
  {
    Manager(m.idle, m.winner, m.data[gid := Some(d)])
  }

  /** Data read back is the data stored, and it stays so across `win` and
      `finish`; `start` clears it. */
  lemma DataRoundTrip<D>(m: Manager<D>, gid: int, d: D, w: int)
    ensures GetData(SetData(m, gid, d), gid) == Some(d)
    ensures GetData(Finish(Win(SetData(m, gid, d), gid, w), gid), gid) == Some(d)
    ensures !IsDataSet(Start(SetData(m, gid, d), gid), gid)
  {
  }

  /** Later winners replace earlier ones: there is no first-winner latch in
      the manager itself. */
  lemma WinOverwrites<D>(m: Manager<D>, gid: int, a: int, b: int)
    ensures GetWinner(Win(Win(m, gid, a), gid, b), gid) == b
  {
  }

  /** `finish` followed by `start` begins a clean round whatever came before. */
  lemma RestartIsClean<D>(m: Manager<D>, gid: int)
    ensures var r := Start(Finish(m, gid), gid);
      !IsIdle(r, gid) && GetWinner(r, gid) == 0 && !IsDataSet(r, gid)
  {
  }

  /** Operations on different groups commute. */
  lemma DifferentGroupsCommute<D>(m: Manager<D>, g: int, h: int, w: int)
    requires g != h
    ensures Win(Start(m, g), h, w) == Start(Win(m, h, w), g)
    ensures Finish(Start(m, g), h) == Start(Finish(m, h), g)
  {
  }
}
