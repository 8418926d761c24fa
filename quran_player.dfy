/** The Quran audio player (`quran-player.tsx`): surah selection with
    wrap-around, the `m:ss` clock, mute and volume, play/pause, and the guard
    that attempts autoplay at most once per loaded surah. The browser's audio
    element is reduced to whether it is mounted, whether its `muted` property is
    set, and whether a `play()` call succeeds, which is an input. */
module QuranPlayer {
  import opened Common
  import opened Text
  import opened Carousel

  /** Number of entries in the `surahs` list. */
  const SurahCount: nat := 3

  /** A media time as the audio element reports it: NaN before the metadata is
      known, otherwise whole seconds (the fraction never shows on the clock). */
  datatype MediaTime = NotANumber | Seconds(value: nat)

  // ---------------------------------------------------------------------------
  // formatTime

  /** `formatTime(time)`: minutes, a colon, then the seconds padded to two digits. */
  function FormatTime(time: MediaTime): (r: string)
    ensures time.NotANumber? ==> r == "0:00"
    ensures |r| >= 4 && r[|r| - 3] == ':'
    ensures time.Seconds? ==> ParseClock(r) == Some(time.value)
  {
    match time
    case NotANumber => "0:00"
    case Seconds(t) =>
      var r := NatToString(t / 60) + ":" + PadTwo(t % 60);
      assert r[..|r| - 3] == NatToString(t / 60);
      assert r[|r| - 2..] == PadTwo(t % 60);
      ParseNatToString(t / 60);
      r
  }

  /** Reads an `m:ss` clock back into seconds; None unless the minutes are
      written without a leading zero and the seconds field is two digits below 60. */
  function ParseClock(s: string): Option<nat> {
    if |s| < 4 || s[|s| - 3] != ':' then None
    else
      var minutes := s[..|s| - 3];
      var seconds := s[|s| - 2..];
      if IsDecimal(minutes) && AllDigits(seconds) && ParseNat(seconds) < 60
      then Some(ParseNat(minutes) * 60 + ParseNat(seconds))
      else None
  }

  /** Every clock that reads back is the one `formatTime` shows for its value,
      so `ParseClock` accepts exactly the formatter's strings. */
  lemma FormatTimeOfParseClock(s: string)
    requires ParseClock(s).Some?
    ensures FormatTime(Seconds(ParseClock(s).value)) == s
  {
    var minutes := s[..|s| - 3];
    var seconds := s[|s| - 2..];
    var m := ParseNat(minutes);
    var sec := ParseNat(seconds);
    var t := m * 60 + sec;
    MinutesAndSeconds(m, sec);
    NatToStringParseNat(minutes);
    TwoDigitsDetermined(PadTwo(sec), seconds);
    assert FormatTime(Seconds(t)) == minutes + ":" + seconds;
    assert s == minutes + ":" + seconds;
  }

  /** Whole minutes and the remaining seconds recover `m` and `sec`. */
  lemma MinutesAndSeconds(m: nat, sec: nat)
    requires sec < 60
    ensures (m * 60 + sec) / 60 == m && (m * 60 + sec) % 60 == sec
  {
  }

  /** Distinct times show distinct clocks. */
  lemma FormatTimeInjective(a: nat, b: nat)
    ensures FormatTime(Seconds(a)) == FormatTime(Seconds(b)) ==> a == b
  {
  }

  // ---------------------------------------------------------------------------
  // Mute and volume

  /** The volume slider's value (0 to 100), the `isMuted` state that picks the
      speaker icon, and the audio element's own `muted` property. */
  datatype Sound = Sound(volume: nat, isMuted: bool, elementMuted: bool)

  /** The icon never claims sound while the element itself is muted. */
  predicate HonestIcon(s: Sound) {
    s.elementMuted ==> s.isMuted
  }

  /** `toggleMute()`: the element and the state both take the negation of the
      state's flag. */
  function ToggleMute(s: Sound): (r: Sound)
    ensures r.volume == s.volume && r.isMuted == !s.isMuted && r.elementMuted == r.isMuted
    ensures HonestIcon(r)
  {
    Sound(s.volume, !s.isMuted, !s.isMuted)
  }

  /** Muting twice gives back the flag and the volume, and leaves the element in
      step with the flag; so it restores the whole state exactly when the
      element was in step before (the slider at 0 sets the flag alone). */
  lemma ToggleMuteTwice(s: Sound)
    ensures ToggleMute(ToggleMute(s)) == s.(elementMuted := s.isMuted)
    ensures ToggleMute(ToggleMute(s)) == s <==> s.elementMuted == s.isMuted
  {
  }

  /** `handleVolumeChange([v])` as written: volume 0 sets the flag, another
      volume clears it, and the element's `muted` property is left alone. */
  function VolumeChangeAsWritten(s: Sound, v: nat): (r: Sound)
    requires v <= 100
    ensures r.volume == v && r.elementMuted == s.elementMuted
    ensures r.isMuted <==> v == 0
  {
    if v == 0 then Sound(v, true, s.elementMuted)
    else if s.isMuted then Sound(v, false, s.elementMuted)
    else s.(volume := v)
  }

  /** After muting with the button, moving the slider shows the sound icon while
      the element stays muted. */
  lemma VolumeChangeAsWrittenHidesMute()
    ensures var muted := ToggleMute(Sound(70, false, false));
            var r := VolumeChangeAsWritten(muted, 50);
            HonestIcon(muted) && !r.isMuted && r.elementMuted && !HonestIcon(r)
  {
  }

  /** The volume change with the evident intent: a non-zero volume that clears
      the mute flag also unmutes the element. */
  function VolumeChange(s: Sound, v: nat): (r: Sound)
    requires v <= 100
    ensures r.volume == v
    ensures r.isMuted <==> v == 0
    ensures v == 0 ==> r.elementMuted == s.elementMuted
    ensures HonestIcon(s) ==> HonestIcon(r)
  {
    if v == 0 then Sound(v, true, s.elementMuted)
    else if s.isMuted then Sound(v, false, false)
    else Sound(v, false, s.elementMuted)
  }

  // ---------------------------------------------------------------------------
  // The component

  datatype Direction = Next | Prev

  /** `changeSurah`'s index arithmetic. */
  function StepSurah(i: nat, d: Direction): (r: nat)
    requires i < SurahCount
    ensures r < SurahCount
    ensures d == Next ==> r == if i == SurahCount - 1 then 0 else i + 1
    ensures d == Prev ==> r == if i == 0 then SurahCount - 1 else i - 1
  {
    if d == Next then NextIndex(i, SurahCount) else PrevIndex(i, SurahCount)
  }

  /** Next then back, or back then next, returns to the same surah. */
  lemma StepSurahRoundTrip(i: nat)
    requires i < SurahCount
    ensures StepSurah(StepSurah(i, Next), Prev) == i
    ensures StepSurah(StepSurah(i, Prev), Next) == i
  {
    PrevAfterNext(i, SurahCount);
    NextAfterPrev(i, SurahCount);
  }

  /** Every piece of component state, for stating what a handler changes. */
  datatype View = View(
    isPlaying: bool, isAudioLoaded: bool, autoplayAttempted: bool, autoplayBlocked: bool,
    userInteracted: bool, duration: MediaTime, currentTime: nat, sound: Sound,
    currentSurahIndex: nat)

  class Player {
    var isPlaying: bool
    var isAudioLoaded: bool
    var autoplayAttempted: bool
    var autoplayBlocked: bool
    var userInteracted: bool
    var duration: MediaTime
    var currentTime: nat
    var sound: Sound
    var currentSurahIndex: nat
    /** Whether the audio element is mounted (`audioRef.current`). */
    const audioMounted: bool
    /** Autoplay attempts since the current surah was loaded. */
    ghost var autoplayTries: nat

    function Snapshot(): View
      reads this
    {
      View(isPlaying, isAudioLoaded, autoplayAttempted, autoplayBlocked, userInteracted,
           duration, currentTime, sound, currentSurahIndex)
    }

    /** The surah index is in range, the volume is a slider value, the icon is
        honest, and autoplay has been tried at most once for this surah. */
    ghost predicate Valid()
      reads this
    {
      currentSurahIndex < SurahCount && sound.volume <= 100 && HonestIcon(sound) &&
      autoplayTries == (if autoplayAttempted then 1 else 0)
    }

    constructor (mounted: bool)
      ensures Valid() && audioMounted == mounted && autoplayTries == 0
      ensures Snapshot() == View(false, false, false, false, false, Seconds(0), 0, Sound(70, false, false), 0)
    {
      isPlaying, isAudioLoaded, autoplayAttempted, autoplayBlocked, userInteracted := false, false, false, false, false;
      duration, currentTime := Seconds(0), 0;
      sound := Sound(70, false, false);
      currentSurahIndex := 0;
      audioMounted := mounted;
      autoplayTries := 0;
    }

    /** The autoplay effect: once the audio has loaded and autoplay has not been
        tried for this surah, try to play; a blocked attempt is remembered. */
    method AttemptAutoplay(playSucceeds: bool)
      requires Valid()
      modifies this
      ensures Valid() && autoplayTries <= 1
      ensures old(autoplayAttempted) || !isAudioLoaded || !audioMounted ==>
        Snapshot() == old(Snapshot()) && autoplayTries == old(autoplayTries)
      ensures !old(autoplayAttempted) && isAudioLoaded && audioMounted ==>
        autoplayTries == 1 &&
        Snapshot() == old(Snapshot()).(autoplayAttempted := true, isPlaying := playSucceeds,
                                       autoplayBlocked := !playSucceeds)
    {
      if autoplayAttempted || !isAudioLoaded || !audioMounted {
        return;
      }
      autoplayAttempted := true;
      autoplayTries := autoplayTries + 1;
      if playSucceeds {
        isPlaying := true;
        autoplayBlocked := false;
      } else {
        autoplayBlocked := true;
        isPlaying := false;
      }
    }

    /** The first touch, click or key press: if autoplay was blocked, try again. */
    method UserInteraction(playSucceeds: bool)
      requires Valid()
      modifies this
      ensures Valid() && autoplayTries == old(autoplayTries)
      ensures old(userInteracted) ==> Snapshot() == old(Snapshot())
      ensures !old(userInteracted) && old(autoplayBlocked) && audioMounted && isAudioLoaded && playSucceeds ==>
        Snapshot() == old(Snapshot()).(userInteracted := true, isPlaying := true, autoplayBlocked := false)
      ensures !old(userInteracted) && !(old(autoplayBlocked) && audioMounted && isAudioLoaded && playSucceeds) ==>
        Snapshot() == old(Snapshot()).(userInteracted := true)
    {
      if userInteracted {
        return;
      }
      userInteracted := true;
      if autoplayBlocked && audioMounted && isAudioLoaded && playSucceeds {
        isPlaying := true;
        autoplayBlocked := false;
      }
    }

    /** `loadeddata`: the duration is known and the audio counts as loaded. */
    method AudioLoaded(d: MediaTime)
      requires Valid()
      modifies this
      ensures Valid() && autoplayTries == old(autoplayTries)
      ensures Snapshot() == old(Snapshot()).(duration := d, isAudioLoaded := true)
    {
      duration := d;
      isAudioLoaded := true;
    }

    /** `timeupdate`, and the seek slider's `handleTimeChange`. */
    method SetTime(t: nat)
      requires Valid()
      modifies this
      ensures Valid() && autoplayTries == old(autoplayTries)
      ensures audioMounted ==> Snapshot() == old(Snapshot()).(currentTime := t)
      ensures !audioMounted ==> Snapshot() == old(Snapshot())
    {
      if !audioMounted {
        return;
      }
      currentTime := t;
    }

    /** The element's `play` and `pause` events. */
    method PlaybackEvent(playing: bool)
      requires Valid()
      modifies this
      ensures Valid() && autoplayTries == old(autoplayTries)
      ensures Snapshot() == old(Snapshot()).(isPlaying := playing)
    {
      isPlaying := playing;
    }

    /** `visibilitychange` to hidden: playing audio is paused. */
    method PageHidden()
      requires Valid()
      modifies this
      ensures Valid() && autoplayTries == old(autoplayTries)
      ensures audioMounted && old(isPlaying) ==> Snapshot() == old(Snapshot()).(isPlaying := false)
      ensures !(audioMounted && old(isPlaying)) ==> Snapshot() == old(Snapshot())
      ensures audioMounted ==> !isPlaying
    {
      if audioMounted && isPlaying {
        isPlaying := false;
      }
    }

    /** `togglePlay()`: pause when playing; otherwise try to play, and remember
        a refusal as blocked autoplay. */
    method TogglePlay(playSucceeds: bool)
      requires Valid()
      modifies this
      ensures Valid() && autoplayTries == old(autoplayTries)
      ensures !audioMounted ==> Snapshot() == old(Snapshot())
      ensures audioMounted && old(isPlaying) ==> Snapshot() == old(Snapshot()).(isPlaying := false)
      ensures audioMounted && !old(isPlaying) && playSucceeds ==>
        Snapshot() == old(Snapshot()).(isPlaying := true, autoplayBlocked := false)
      ensures audioMounted && !old(isPlaying) && !playSucceeds ==>
        Snapshot() == old(Snapshot()).(autoplayBlocked := true)
    {
      if !audioMounted {
        return;
      }
      if isPlaying {
        isPlaying := false;
      } else if playSucceeds {
        isPlaying := true;
        autoplayBlocked := false;
      } else {
        autoplayBlocked := true;
      }
    }

    /** `toggleMute()`. */
    method ToggleMuteButton()
      requires Valid()
      modifies this
      ensures Valid() && autoplayTries == old(autoplayTries)
      ensures audioMounted ==> Snapshot() == old(Snapshot()).(sound := ToggleMute(old(sound)))
      ensures !audioMounted ==> Snapshot() == old(Snapshot())
    {
      if !audioMounted {
        return;
      }
      sound := ToggleMute(sound);
    }

    /** `handleVolumeChange([v])` from a slider with range 0 to 100, with the
        element unmuted along with the flag. */
    method HandleVolumeChange(v: nat)
      requires Valid() && v <= 100
      modifies this
      ensures Valid() && autoplayTries == old(autoplayTries)
      ensures audioMounted ==> Snapshot() == old(Snapshot()).(sound := VolumeChange(old(sound), v))
      ensures !audioMounted ==> Snapshot() == old(Snapshot())
    {
      if !audioMounted {
        return;
      }
      sound := VolumeChange(sound, v);
    }

    /** `changeSurah(direction)`: move to the neighbouring surah with
        wrap-around, rewind, and forget the loaded and autoplay flags so the
        new surah may autoplay once. */
    method ChangeSurah(d: Direction)
      requires Valid()
      modifies this
      ensures Valid()
      ensures !audioMounted ==> Snapshot() == old(Snapshot()) && autoplayTries == old(autoplayTries)
      ensures audioMounted ==> autoplayTries == 0
      ensures audioMounted ==>
        Snapshot() == old(Snapshot()).(currentSurahIndex := StepSurah(old(currentSurahIndex), d),
                                       currentTime := 0, isAudioLoaded := false,
                                       autoplayAttempted := false, autoplayBlocked := false)
    {
      if !audioMounted {
        return;
      }
      currentSurahIndex := StepSurah(currentSurahIndex, d);
      currentTime := 0;
      isAudioLoaded := false;
      autoplayAttempted := false;
      autoplayBlocked := false;
      autoplayTries := 0;
    }

    /** `ended`: stop, then move on to the next surah. */
    method AudioEnded()
      requires Valid()
      modifies this
      ensures Valid()
      ensures !audioMounted ==> Snapshot() == old(Snapshot()).(isPlaying := false)
      ensures audioMounted ==> autoplayTries == 0
      ensures audioMounted ==>
        Snapshot() == old(Snapshot()).(isPlaying := false,
                                       currentSurahIndex := StepSurah(old(currentSurahIndex), Next),
                                       currentTime := 0, isAudioLoaded := false,
                                       autoplayAttempted := false, autoplayBlocked := false)
    {
      isPlaying := false;
      ChangeSurah(Next);
    }

    /** A surah button under the player: only the index changes. */
    method SelectSurah(index: nat)
      requires Valid() && index < SurahCount
      modifies this
      ensures Valid() && autoplayTries == old(autoplayTries)
      ensures Snapshot() == old(Snapshot()).(currentSurahIndex := index)
    {
      currentSurahIndex := index;
    }
  }
}
