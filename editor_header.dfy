/**
 * The save-status line of the post editor's header
 * (components/editor/EditorHeader.tsx): while saving it says so; otherwise it
 * buckets the time since the last save into whole minutes.
 */
module EditorHeader {
  import opened Wrappers
  import opened Strings

  /** `Math.floor(diff / 60000)` for a difference in milliseconds. Dafny's
      division by a positive number already rounds down, also for a
      negative difference. */
  function ElapsedMinutes(diff: int): (minutes: int)
    ensures minutes * 60000 <= diff < (minutes + 1) * 60000
  {
    diff / 60000
  }

  /** A clock set back (a save stamped in the future) gives a negative count. */
  lemma FutureSaveIsNegative(diff: int)
    requires diff < 0
    ensures ElapsedMinutes(diff) < 0
  {
  }

  const Unsaved := "Sin guardar"
  const JustSaved := "Guardado"
  const SavingNow := "Guardando..."

  /** formatLastSaved, for a save `lastSaved` and the current time `now`,
      both in milliseconds; `clock` is the save's `toLocaleTimeString`
      rendering, which the model does not compute. */
  function FormatLastSaved(lastSaved: Option<int>, now: int, clock: string): (t: string)
    ensures t == Unsaved <==> lastSaved.None?
    ensures t != SavingNow
  {
    if lastSaved.None? then Unsaved
    else
      var minutes := ElapsedMinutes(now - lastSaved.value);
      if minutes < 1 then JustSaved
      else if minutes == 1 then "Guardado hace 1 min"
      else if minutes < 60 then "Guardado hace " + NatToString(minutes) + " min"
      else "Guardado a las " + clock
  }

  /** The buckets: no save, under a minute (or in the future), between one
      and fifty-nine whole minutes, and an hour or more. */
  lemma FormatBuckets(lastSaved: Option<int>, now: int, clock: string)
    ensures lastSaved.None? ==> FormatLastSaved(lastSaved, now, clock) == Unsaved
    ensures lastSaved.Some? && now - lastSaved.value < 60000 ==> FormatLastSaved(lastSaved, now, clock) == JustSaved
    ensures lastSaved.Some? && 60000 <= now - lastSaved.value < 3600000 ==>
              var m := (now - lastSaved.value) / 60000;
              1 <= m < 60 && FormatLastSaved(lastSaved, now, clock) == "Guardado hace " + NatToString(m) + " min"
    ensures lastSaved.Some? && now - lastSaved.value >= 3600000 ==>
              FormatLastSaved(lastSaved, now, clock) == "Guardado a las " + clock
  {
    if lastSaved.Some? {
      var m := ElapsedMinutes(now - lastSaved.value);
      if 60000 <= now - lastSaved.value < 3600000 {
        assert 1 <= m < 60;
        if m == 1 {
          assert NatToString(1) == "1";
        }
      }
    }
  }

  /** The special case for one minute reads the same as the general form. */
  lemma OneMinuteMatchesGeneralForm()
    ensures "Guardado hace 1 min" == "Guardado hace " + NatToString(1) + " min"
  {
    assert NatToString(1) == [DigitChar(1)] == "1";
  }

  /** The status text shown: the saving notice overrides every other text. */
  function StatusText(isSaving: bool, lastSaved: Option<int>, now: int, clock: string): (text: string)
    ensures isSaving ==> text == SavingNow
    ensures !isSaving ==> text == FormatLastSaved(lastSaved, now, clock)
  {
    if isSaving then SavingNow else FormatLastSaved(lastSaved, now, clock)
  }

  /** Only the saving notice says "Guardando...". */
  lemma SavingNoticeIsDistinct(isSaving: bool, lastSaved: Option<int>, now: int, clock: string)
    ensures StatusText(isSaving, lastSaved, now, clock) == SavingNow <==> isSaving
  {
    if !isSaving && lastSaved.Some? {
      var text := FormatLastSaved(lastSaved, now, clock);
      assert |text| != |SavingNow|;
    }
  }
}
