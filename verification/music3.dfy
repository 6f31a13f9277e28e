/** The scale player `Music3` (audio/music3.py): bits 22..27 of a free-running 28-bit
    counter `tone` pick one of 64 notes, split by `DivideBy12` into an octave (0..5) and
    a note of the 12-tone scale. A 12-entry table of dividers, one per semitone, sets the
    length of a note-counter cycle; an octave counter then divides the cycles by 256,
    128, ..., 8, and the output flips when both counters are 0.

    As written, the note counter is 9 bits wide while the divider it is reloaded with is
    11 bits, so the reload loses the divider's top bits; `StepWith` takes the counter's
    modulus as a parameter, `StepAsWritten` uses the 9-bit one and `Step` a counter wide
    enough for the divider. */
module Music3 {
  import opened Bits

  /** The dividers of the 12 semitones, from the lowest note up. */
  const Notes: seq<nat> := [512, 483, 456, 431, 406, 384, 362, 342, 323, 304, 287, 271]

  /** The 9-bit-wide, 16-entry note memory: `notes[i] - 1` for the 12 semitones, the
      uninitialised entries 0. */
  function NoteMem(i: nat): nat
    requires i < 16
  {
    if i < 12 then Notes[i] - 1 else 0
  }

  /** `fullnote = tone[22:]`, six bits. */
  function FullNote(tone: nat): nat
  {
    tone / 0x40_0000 % 64
  }

  /** `DivideBy12`'s quotient and remainder: the module itself is not part of this model,
      only its result. */
  function Octave(tone: nat): nat
  {
    FullNote(tone) / 12
  }

  function Note(tone: nat): nat
  {
    FullNote(tone) % 12
  }

  /** `clkdivider = Cat(Const(0, 2), notemem[note])`: four times the table entry. */
  function ClkDivider(tone: nat): nat
  {
    4 * NoteMem(Note(tone))
  }

  /** The octave counter's reload: 255 for octave 0, halving per octave, 7 from octave 5
      on. */
  function OctaveReload(octave: nat): nat
  {
    if octave == 0 then 255
    else if octave == 1 then 127
    else if octave == 2 then 63
    else if octave == 3 then 31
    else if octave == 4 then 15
    else 7
  }

  datatype ScaleState = ScaleState(tone: nat, counterNote: nat, counterOctave: nat, left: Nibble)

  function ScaleReset(): ScaleState
  {
    ScaleState(0, 0, 0, 0)
  }

  /** One clock edge with a note counter of modulus noteMod: the reload is the divider
      truncated to the counter's width. */
  function StepWith(noteMod: nat, s: ScaleState): ScaleState
    requires noteMod > 0
  {
    var tone := (s.tone + 1) % 0x1000_0000;
    if s.counterNote == 0 then
      var reload := ClkDivider(s.tone) % noteMod;
      if s.counterOctave == 0 then
        ScaleState(tone, reload, OctaveReload(Octave(s.tone)), 15 - s.left)
      else ScaleState(tone, reload, s.counterOctave - 1, s.left)
    else ScaleState(tone, s.counterNote - 1, s.counterOctave, s.left)
  }

  /** The design as written: `counter_note` is 9 bits. */
  function StepAsWritten(s: ScaleState): ScaleState
  {
    StepWith(0x200, s)
  }

  /** The design with an 11-bit `counter_note`, as wide as `clkdivider`. */
  function Step(s: ScaleState): ScaleState
  {
    StepWith(0x800, s)
  }

  /** The semitone dividers strictly decrease: each note is higher than the last. */
  lemma NotesDecreasing(i: nat, j: nat)
    requires i < j < 12
    ensures Notes[i] > Notes[j]
  {
  }

  /** The note memory holds one less than each divider, fits its 9-bit width, and its
      four unused entries are 0. */
  lemma NoteMemTable(i: nat)
    requires i < 16
    ensures NoteMem(i) < 0x200
    ensures i < 12 ==> NoteMem(i) + 1 == Notes[i]
    ensures i >= 12 ==> NoteMem(i) == 0
  {
  }

  /** The 6-bit note number splits into an octave 0..5 and a semitone 0..11 that
      rebuild it; the divider is then four times a table entry, within 11 bits. */
  lemma NoteSplit(tone: nat)
    ensures FullNote(tone) < 64
    ensures Octave(tone) <= 5 && Note(tone) < 12
    ensures 12 * Octave(tone) + Note(tone) == FullNote(tone)
    ensures ClkDivider(tone) == 4 * (Notes[Note(tone)] - 1) < 0x800
  {
  }

  /** The octave counter's reload is 2^(8 - octave) - 1 for every octave the note number
      can produce, so each octave up halves the number of note cycles per flip. */
  lemma OctaveReloadPowers(octave: nat)
    requires octave <= 5
    ensures OctaveReload(octave) == Pow2(8 - octave) - 1
  {
    Pow2Table();
    assert Pow2(7) == 128 && Pow2(3) == 8;
  }

  /** The output flips exactly when both counters are 0; the octave counter moves only
      when the note counter is 0. */
  lemma FlipCondition(noteMod: nat, s: ScaleState)
    requires noteMod > 0 && (s.left == 0 || s.left == 15)
    ensures StepWith(noteMod, s).left != s.left <==> s.counterNote == 0 && s.counterOctave == 0
    ensures s.counterNote != 0 ==> StepWith(noteMod, s).counterOctave == s.counterOctave
  {
  }

  /** With the counter as wide as the divider, the reload is the whole divider, and the
      note-counter cycle, reload + 1 ticks, is strictly shorter for every higher semitone:
      the pitch rises along the scale. */
  lemma ReloadMonotone(s: ScaleState, t: ScaleState)
    requires s.counterNote == 0 && t.counterNote == 0
    requires Octave(s.tone) == Octave(t.tone) && Note(s.tone) < Note(t.tone)
    ensures Step(s).counterNote == ClkDivider(s.tone)
    ensures Step(s).counterNote > Step(t).counterNote
  {
    NoteSplit(s.tone);
    NoteSplit(t.tone);
    NotesDecreasing(Note(s.tone), Note(t.tone));
  }

  /** A state at the start of a note cycle for fullnote n. */
  function NoteStart(n: nat): ScaleState
  {
    ScaleState(n * 0x40_0000, 0, 1, 0)
  }

  /** As written, the 9-bit counter keeps only the low nine bits of the divider: the
      fifth semitone (divider 4 * 405 = 1620) reloads 84 while the higher sixth
      (4 * 383 = 1532) reloads 508, the same as the lowest note (4 * 511 = 2044), so the
      pitch does not rise along the scale. */
  lemma ReloadAsWrittenNotMonotone()
    ensures Note(NoteStart(4).tone) == 4 && Note(NoteStart(5).tone) == 5
    ensures Octave(NoteStart(4).tone) == Octave(NoteStart(5).tone) == 0
    ensures StepAsWritten(NoteStart(4)).counterNote == 84
    ensures StepAsWritten(NoteStart(5)).counterNote == 508
    ensures StepAsWritten(NoteStart(0)).counterNote == 508
    ensures Step(NoteStart(4)).counterNote == 1620 && Step(NoteStart(5)).counterNote == 1532
  {
  }

  /** From reset: the tone within 28 bits, the counters within their reloads, the output
      0 or 15; the note counter is below the modulus it is truncated to. */
  predicate ScaleInv(noteMod: nat, s: ScaleState)
  {
    && s.tone < 0x1000_0000 && s.counterNote < noteMod && s.counterOctave <= 255
    && (s.left == 0 || s.left == 15)
  }

  lemma ScaleStepInv(noteMod: nat, s: ScaleState)
    requires noteMod > 0 && ScaleInv(noteMod, s)
    ensures ScaleInv(noteMod, StepWith(noteMod, s))
  {
  }
}
