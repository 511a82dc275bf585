/**
 * The settings singleton (src/services/setting/setting.ts): zero or more
 * stored settings, of which only the first is ever read or written.
 */
module SettingService {
  import opened Options
  import opened Errors

  /** The two dispenser timings. */
  datatype Setting = Setting(dispenserEmptyingTime: real, dispenserFillingTime: real)

  /** `defaultSetting`: both timings 1. */
  const DefaultSetting := Setting(1.0, 1.0)

  /** A reply together with the settings it leaves stored. */
  datatype Outcome<T> = Outcome(reply: Reply<T>, store: seq<Setting>)

  /**
   * The payload validators, each giving its first message when it rejects
   * the setting. `create` and `findSettingOrCreate` use `create`, `update`
   * uses `update`.
   */
  datatype Validators = Validators(create: Setting -> Option<string>, update: Setting -> Option<string>)

  /** `create`: a rejected payload stores nothing; an accepted one is appended and returned. */
  function Create(store: seq<Setting>, setting: Setting, v: Validators): (out: Outcome<Setting>)
    ensures v.create(setting).Some? ==>
      out.reply == Err(NewIncorrectInputError(v.create(setting).value, ErrIncorrectInput)) && out.store == store
    ensures v.create(setting).None? ==> out.reply == Ok(setting) && out.store == store + [setting]
  {
    match v.create(setting)
    case Some(message) => Outcome(Err(NewIncorrectInputError(message, ErrIncorrectInput)), store)
    case None => Outcome(Ok(setting), store + [setting])
  }

  /**
   * `findSettingOrCreate`: the first stored setting, or the defaults stored
   * through `create` when there is none. `None` is the empty object the
   * source returns when `create` rejects the defaults.
   */
  function FindSettingOrCreate(store: seq<Setting>, v: Validators): (r: (Option<Setting>, seq<Setting>))
    ensures |store| > 0 ==> r == (Some(store[0]), store)
    ensures |store| == 0 && v.create(DefaultSetting).None? ==> r == (Some(DefaultSetting), [DefaultSetting])
    ensures |store| == 0 && v.create(DefaultSetting).Some? ==> r == (None, [])
  {
    if |store| == 0 then
      var out := Create(store, DefaultSetting, v);
      assert store + [DefaultSetting] == [DefaultSetting];
      (if out.reply.Ok? then Some(out.reply.value) else None, out.store)
    else (Some(store[0]), store)
  }

  /** `find`: the same as `findSettingOrCreate`. */
  function Find(store: seq<Setting>, v: Validators): (r: (Option<Setting>, seq<Setting>))
    ensures |r.1| <= |store| + 1
    ensures |store| > 0 ==> r.1 == store
    ensures r.0.Some? ==> |r.1| > 0 && r.0.value == r.1[0]
  {
    FindSettingOrCreate(store, v)
  }

  /** Two `find`s in a row give the same setting, and only the first may store one. */
  lemma FindIdempotent(store: seq<Setting>, v: Validators)
    ensures var (first, after) := Find(store, v);
      var (second, afterSecond) := Find(after, v);
      && second == first && afterSecond == after && |after| <= |store| + 1
  {
  }

  /**
   * `update`. A rejected payload changes nothing. On an empty store the
   * payload is ignored and the defaults are stored and returned, through
   * `findSettingOrCreate`. Otherwise both timings of the first setting are
   * overwritten by the payload's. A `None` reply value is the empty object
   * answered when `create` rejects the defaults.
   */
  function Update(store: seq<Setting>, setting: Setting, v: Validators): (out: Outcome<Option<Setting>>)
    ensures v.update(setting).Some? ==>
      out == Outcome(Err(NewIncorrectInputError(v.update(setting).value, ErrIncorrectInput)), store)
    ensures v.update(setting).None? && |store| == 0 && v.create(DefaultSetting).None? ==>
      out == Outcome(Ok(Some(DefaultSetting)), [DefaultSetting])
    ensures v.update(setting).None? && |store| > 0 ==>
      && out.reply == Ok(Some(setting))
      && |out.store| == |store| && out.store[0] == setting && out.store[1..] == store[1..]
    ensures !out.reply.Thrown?
  {
    match v.update(setting)
    case Some(message) => Outcome(Err(NewIncorrectInputError(message, ErrIncorrectInput)), store)
    case None =>
      if |store| == 0 then
        var (found, after) := FindSettingOrCreate(store, v);
        Outcome(Ok(found), after)
      else
        var updated := Setting(setting.dispenserEmptyingTime, setting.dispenserFillingTime);
        Outcome(Ok(Some(updated)), [updated] + store[1..])
  }

  /** After an accepted `update` on a non-empty store, `find` reads back the payload's timings. */
  lemma UpdateThenFind(store: seq<Setting>, setting: Setting, v: Validators)
    requires v.update(setting).None? && |store| > 0
    ensures Find(Update(store, setting, v).store, v).0 == Some(setting)
  {
  }
}
