/** The round protocol of the two guessing games (games/card_guess.py and
    games/voice_guess.py) on top of the `GameManager`: opening a round, the
    guesses checked while it runs, the close after the time limit, and the
    unlock command. Everything between `start` and `set_data` that talks to
    an engine (search, random pick, image or voice download, crop) is folded
    into one `Fetch` outcome; the sleep is the gap between the guesses and
    `Close`. */
module Rounds {
  import opened Wrappers
  import opened GameManager
  import opened NamePattern

  datatype Game = CardGuess | VoiceGuess

  /** The round data: the card's names; a guess wins when the names pattern
      accepts it. */
  datatype Answer = Answer(names: seq<string>)

  type State = Manager<Answer>

  /** What the engine work after `start` came to. `BadConfig` is a failure
      before the `try`: a group setting that is not an object, or an engine
      setting that is an object and so cannot be looked up. */
  datatype Fetch =
    | BadConfig
    | NoEngine
    | NotImplemented
    | Failed
    | NoCards
    | NoVoices
    | Ready(answer: Answer, sent: bool)

  /** The message the group sees, by meaning. */
  datatype Reply = Busy | Silent | EngineMissing | Unimplemented | FetchError | NoResources | NoVoice | Question | SendFailed

  /** A fetch outcome the game can produce: only the voice game looks for voices. */
  predicate Possible(g: Game, f: Fetch) {
    g == CardGuess ==> !f.NoVoices?
  }

  /** The round-opening handler. A busy group is refused and left alone. An
      idle group is started; every failure finishes it again except the
      unguarded settings lookup, which leaves it busy. A missing engine is
      caught by the card game's general handler, and reported by name in the
      voice game. The replies are the messages sent, in order: in the card
      game `bot.finish` for an empty search raises inside the `try`, and the
      general handler catches it and sends the fetch error as well. */
  function Open(m: State, gid: int, g: Game, f: Fetch): (r: (State, seq<Reply>))
    requires Possible(g, f)
    ensures !IsIdle(m, gid) ==> r == (m, [Busy])
    ensures OthersUnchanged(m, r.0, gid)
    ensures IsIdle(m, gid) ==> GetWinner(r.0, gid) == 0
    ensures IsIdle(m, gid) ==> (IsDataSet(r.0, gid) <==> f.Ready?)
    ensures IsIdle(m, gid) && f.Ready? ==> GetData(r.0, gid) == Some(f.answer)
    ensures IsIdle(m, gid) ==> (!IsIdle(r.0, gid) <==> f.BadConfig? || (f.Ready? && f.sent))
    ensures IsIdle(m, gid) && f.NoEngine? ==> r.1 == [if g == CardGuess then FetchError else EngineMissing]
    ensures IsIdle(m, gid) && f.NoCards? ==> r.1 == (if g == CardGuess then [NoResources, FetchError] else [NoResources])
    ensures IsIdle(m, gid) && f.BadConfig? ==> r.1 == [Silent]
    ensures IsIdle(m, gid) && f.NotImplemented? ==> r.1 == [Unimplemented]
    ensures IsIdle(m, gid) && f.Failed? ==> r.1 == [FetchError]
    ensures IsIdle(m, gid) && f.NoVoices? ==> r.1 == [NoVoice]
    ensures IsIdle(m, gid) && f.Ready? ==> r.1 == [if f.sent then Question else SendFailed]
    ensures IsIdle(m, gid) ==> (|r.1| == 1 <==> !(g == CardGuess && f.NoCards?))
  {
    if !IsIdle(m, gid) then (m, [Busy])
    else
      var s := Start(m, gid);
      match f
      case BadConfig => (s, [Silent])
      case NoEngine => (Finish(s, gid), [if g == CardGuess then FetchError else EngineMissing])
      case NotImplemented => (Finish(s, gid), [Unimplemented])
      case Failed => (Finish(s, gid), [FetchError])
      case NoCards => (Finish(s, gid), if g == CardGuess then [NoResources, FetchError] else [NoResources])
      case NoVoices => (Finish(s, gid), [NoVoice])
      case Ready(a, sent) =>
        var d := SetData(s, gid, a);
        if sent then (d, [Question]) else (Finish(d, gid), [SendFailed])
  }

  /** The message handler as written: nothing happens while the group is
      idle or already decided (or, in the voice game, has no data yet);
      otherwise a matching guess makes its sender the winner. The card game
      reads the data without checking it is set, so a guess that arrives
      before `set_data` fails on `None['pattern']`. */
  function Check(m: State, gid: int, g: Game, user: int, msg: string): (r: Result<State>)
    ensures r.Crash? <==> g == CardGuess && !IsIdle(m, gid) && GetWinner(m, gid) == 0 && !IsDataSet(m, gid)
    ensures r.Crash? ==> r.fault == TypeError
    ensures r.Ok? ==> OthersUnchanged(m, r.value, gid)
    ensures r.Ok? ==> IsIdle(r.value, gid) == IsIdle(m, gid) && GetData(r.value, gid) == GetData(m, gid)
    ensures r.Ok? ==> GetWinner(r.value, gid) == (if !IsIdle(m, gid) && GetWinner(m, gid) == 0 && IsDataSet(m, gid)
                                                     && GuessMatches(GetData(m, gid).value.names, msg)
                                                  then user else GetWinner(m, gid))
  {
    var d := GetData(m, gid);
    if IsIdle(m, gid) || (g == VoiceGuess && d.None?) || GetWinner(m, gid) != 0 then Ok(m)
    else if d.None? then assert g == CardGuess; assert !IsIdle(m, gid) && GetWinner(m, gid) == 0; Crash(TypeError)
    else if GuessMatches(d.value.names, msg) then Ok(Win(m, gid, user))
    else Ok(m)
  }

  /** The guarded message handler: the voice game's, applied to either game. */
  function SafeCheck(m: State, gid: int, user: int, msg: string): (r: State)
    ensures OthersUnchanged(m, r, gid)
    ensures IsIdle(r, gid) == IsIdle(m, gid) && GetData(r, gid) == GetData(m, gid)
    ensures GetWinner(r, gid) == (if !IsIdle(m, gid) && GetWinner(m, gid) == 0 && IsDataSet(m, gid)
                                     && GuessMatches(GetData(m, gid).value.names, msg)
                                  then user else GetWinner(m, gid))
  {
    Check(m, gid, VoiceGuess, user, msg).value
  }

  /** Once data is set, or whenever the group is idle or decided, the card
      game's handler is the guarded one. */
  lemma CheckGuardedWhenSet(m: State, gid: int, g: Game, user: int, msg: string)
    requires IsDataSet(m, gid) || IsIdle(m, gid) || GetWinner(m, gid) != 0
    ensures Check(m, gid, g, user, msg) == Ok(SafeCheck(m, gid, user, msg))
  {
  }

  /** In the card game a guess in the window between `start` and `set_data`
      fails, where the voice game ignores it. */
  lemma EarlyGuessCrashes(m: State, gid: int, user: int, msg: string)
    ensures Check(Start(m, gid), gid, CardGuess, user, msg) == Crash(TypeError)
    ensures SafeCheck(Start(m, gid), gid, user, msg) == Start(m, gid)
  {
  }

  /** After the time limit: an undecided round is lost (winner -1); the group
      is finished either way. */
  function Close(m: State, gid: int): (r: State)
    ensures IsIdle(r, gid)
    ensures GetWinner(r, gid) == (if GetWinner(m, gid) == 0 then -1 else GetWinner(m, gid))
    ensures GetData(r, gid) == GetData(m, gid)
    ensures OthersUnchanged(m, r, gid)
  {
    var w := if GetWinner(m, gid) == 0 then Win(m, gid, -1) else m;
    Finish(w, gid)
  }

  /** The unlock command: finish whatever state the group is in. */
  function Unlock(m: State, gid: int): (r: State)
    ensures IsIdle(r, gid)
    ensures GetWinner(r, gid) == GetWinner(m, gid) && GetData(r, gid) == GetData(m, gid)
    ensures OthersUnchanged(m, r, gid)
  {
    Finish(m, gid)
  }

  /** A settings failure leaves the group busy until someone unlocks it:
      every later opening is refused. */
  lemma BadConfigLocks(m: State, gid: int, g: Game, f: Fetch)
    requires IsIdle(m, gid) && Possible(g, f)
    ensures var s := Open(m, gid, g, BadConfig).0;
      !IsIdle(s, gid) && Open(s, gid, g, f) == (s, [Busy]) && IsIdle(Unlock(s, gid), gid)
  {
  }

  /** One chat message: its sender and its text. Senders are positive ids. */
  datatype Guess = Guess(user: int, text: string)

  /** The messages of a round, checked in order by the guarded handler. */
  function Play(m: State, gid: int, msgs: seq<Guess>): State
    decreases |msgs|
  {
    if |msgs| == 0 then m else Play(SafeCheck(m, gid, msgs[0].user, msgs[0].text), gid, msgs[1..])
  }

  /** The sender of the first message the names accept, or 0 when none does. */
  function FirstHit(names: seq<string>, msgs: seq<Guess>): int
    decreases |msgs|
  {
    if |msgs| == 0 then 0
    else if GuessMatches(names, msgs[0].text) then msgs[0].user
    else FirstHit(names, msgs[1..])
  }

  predicate Senders(msgs: seq<Guess>) {
    forall k :: 0 <= k < |msgs| ==> msgs[k].user > 0
  }

  /** While a round runs with data set, the first accepted guess wins and
      later ones change nothing; an already decided round stays decided. */
  lemma {:induction false} PlayFirstWins(m: State, gid: int, msgs: seq<Guess>)
    requires !IsIdle(m, gid) && IsDataSet(m, gid)
    requires Senders(msgs)
    ensures var r := Play(m, gid, msgs);
      && !IsIdle(r, gid) && GetData(r, gid) == GetData(m, gid)
      && GetWinner(r, gid) == (if GetWinner(m, gid) != 0 then GetWinner(m, gid) else FirstHit(GetData(m, gid).value.names, msgs))
      && OthersUnchanged(m, r, gid)
    decreases |msgs|
  {
    if |msgs| > 0 {
      var m' := SafeCheck(m, gid, msgs[0].user, msgs[0].text);
      PlayFirstWins(m', gid, msgs[1..]);
      OthersUnchangedTrans(m, m', Play(m', gid, msgs[1..]), gid);
    }
  }

  /** A whole round opened on an idle group whose question was sent: it ends
      idle with the answer kept, the winner is the sender of the first
      accepted guess or -1 when nobody got it, and no other group is
      touched. */
  lemma RoundOutcome(m: State, gid: int, g: Game, a: Answer, msgs: seq<Guess>)
    requires IsIdle(m, gid) && Senders(msgs)
    ensures var s := Open(m, gid, g, Ready(a, true)).0;
      var r := Close(Play(s, gid, msgs), gid);
      && IsIdle(r, gid) && GetData(r, gid) == Some(a)
      && GetWinner(r, gid) == (if FirstHit(a.names, msgs) == 0 then -1 else FirstHit(a.names, msgs))
      && OthersUnchanged(m, r, gid)
  {
    var s := Open(m, gid, g, Ready(a, true)).0;
    assert !IsIdle(s, gid) && GetWinner(s, gid) == 0 && GetData(s, gid) == Some(a);
    PlayFirstWins(s, gid, msgs);
    var p := Play(s, gid, msgs);
    OthersUnchangedTrans(m, s, p, gid);
    OthersUnchangedTrans(m, p, Close(p, gid), gid);
  }
}
