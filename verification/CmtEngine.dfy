/** The awareness engine's state and its timer entry point. */
module CmtEngine {
  import opened Bytes
  import opened FixedPoint
  import opened Network
  import opened AiCore
  import opened CmtCore

  datatype HistoryEntry = HistoryEntry(tick: u32, action: nat, level: nat, energy: i32)

  class Cmt {
    var level: nat
    var action: nat
    var inferences: u32
    var uptime: u32
    var disabled: bool
    var experience: Experience
    var lastInput: Inputs
    var history: seq<HistoryEntry>
    var ticksSince: u32
    var ticksTotal: u32

    /** The level always matches the last experience, and never reaches 3. */
    ghost predicate Valid()
      reads this
    {
      && level == DeriveLevel(experience.energy, experience.coherence) && level <= 2
      && 0 <= experience.energy < ONE
      && action <= 2 && |history| <= CMT_HIST_LEN && ticksSince <= CMT_PERIOD
    }

    /** cmt_init. */
    constructor ()
      ensures Valid() && !disabled && level == 0 && history == [] && ticksSince == 0 && ticksTotal == 0 && uptime == 0
    {
      level, action, inferences, uptime, disabled := 0, 0, 0, 0, false;
      experience := Experience(seq(12, _ => 0), 0, 0);
      lastInput := Inputs(0, 0, 0, 0, 0, 0);
      history, ticksSince, ticksTotal := [], 0, 0;
    }

    /** cmt_record: the first 32 entries are kept and later ones are dropped. */
    method Record(entry: HistoryEntry)
      requires Valid()
      modifies this`history
      ensures Valid()
      ensures history == if |old(history)| < CMT_HIST_LEN then old(history) + [entry] else old(history)
    {
      if |history| < CMT_HIST_LEN {
        history := history + [entry];
      }
    }

    /** One inference of cmt_on_tick. */
    method Infer(m: Sensors, me: SelfReport)
      requires Valid() && ticksSince == 0 && InferenceDefined(m, me, uptime)
      modifies this`lastInput, this`experience, this`level, this`action, this`history
      ensures Valid() && 1 <= level <= 2
      ensures lastInput == CmtPerceive(m, me, 0, uptime)
      ensures Experienced(experience, Hidden(CMT, lastInput.Vector()))
      ensures FirstMax(CmtScores(Hidden(CMT, lastInput.Vector())), action)
      ensures |old(history)| < CMT_HIST_LEN
              ==> history == old(history) + [HistoryEntry(ticksTotal, action, level, experience.energy)]
      ensures |old(history)| >= CMT_HIST_LEN ==> history == old(history)
    {
      hide Hidden, CmtPerceive, CmtScores, Readable, Defined;
      lastInput := CmtPerceive(m, me, ticksSince, uptime);
      RestingBodyFires(lastInput.Vector());
      experience, action := Transform(lastInput);
      FiresAtRest(experience, Hidden(CMT, lastInput.Vector()));
      level := DeriveLevel(experience.energy, experience.coherence);
      ScoresLength(Hidden(CMT, lastInput.Vector()));
      Record(HistoryEntry(ticksTotal, action, level, experience.energy));
    }

    /** The next tick infers. */
    predicate Due()
      reads this
    {
      !disabled && ticksSince + 1 >= CMT_PERIOD
    }

    /** cmt_on_tick. */
    method OnTick(m: Sensors, me: SelfReport)
      requires Valid() && (Due() ==> InferenceDefined(m, me, Add32(uptime, 1)))
      modifies this
      ensures Valid() && disabled == old(disabled)
      ensures old(disabled) ==> unchanged(this)
      ensures !old(disabled) ==> uptime == Add32(old(uptime), 1) && ticksTotal == Add32(old(ticksTotal), 1)
      ensures !old(disabled) && old(ticksSince) + 1 < CMT_PERIOD
              ==> ticksSince == old(ticksSince) + 1
                  && unchanged(`level, `action, `inferences, `experience, `lastInput, `history)
      ensures old(Due())
              ==> && ticksSince == 0 && inferences == Add32(old(inferences), 1) && 1 <= level <= 2
                  && lastInput == CmtPerceive(m, me, 0, uptime)
                  && Experienced(experience, Hidden(CMT, lastInput.Vector()))
                  && FirstMax(CmtScores(Hidden(CMT, lastInput.Vector())), action)
                  && old(history) <= history
    {
      hide Hidden, CmtPerceive, CmtScores, Experienced, Readable, Defined;
      if disabled {
        return;
      }
      uptime := Add32(uptime, 1);
      ticksTotal := Add32(ticksTotal, 1);
      ticksSince := ticksSince + 1;
      if ticksSince < CMT_PERIOD {
        return;
      }
      ticksSince := 0;
      inferences := Add32(inferences, 1);
      Infer(m, me);
    }

    /** cmt_force_inference: the next tick infers. */
    method ForceInference()
      requires Valid()
      modifies this`ticksSince
      ensures Valid() && ticksSince == CMT_PERIOD && (!disabled ==> Due())
    {
      ticksSince := CMT_PERIOD;
    }

    /** cmt_enable and cmt_disable. */
    method SetDisabled(value: bool)
      requires Valid()
      modifies this`disabled
      ensures Valid() && disabled == value
    {
      disabled := value;
    }
  }

  lemma FiresAtRest(e: Experience, h: seq<i32>)
    requires Experienced(e, h) && h[3] == -43690 && 0 <= e.energy < ONE && DeriveLevel(e.energy, e.coherence) <= 2
    requires forall i :: 0 <= i < 12 ==> -65535 <= h[i] <= 65535
    ensures DeriveLevel(e.energy, e.coherence) >= 1
  {
    LevelMeans(e, h);
    assert Abs(h[3]) >= 12;
  }

  lemma ScoresLength(h: seq<i32>)
    requires |h| == 12
    ensures |CmtScores(h)| == 3
  {
  }
}
