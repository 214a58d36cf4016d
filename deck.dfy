/**
 * `core/deck_creator.py`: an Anki deck from a video and its subtitles.  One
 * screenshot and one audio clip are cut per subtitle (the audio in batches
 * of ffmpeg outputs), then a note is made for every subtitle whose two
 * media files exist, and the deck is packaged with those files.
 *
 * ffmpeg and the files it writes are outside the model: the extraction
 * yields the commands it would run, and the files present afterwards are
 * a parameter of note creation.
 */
module Deck {
  import opened Wrappers
  import opened Text
  import Condenser

  /** `DeckConfig`. */
  datatype DeckConfig = DeckConfig(imageQuality: int, imageResolution: string, audioBatchSize: int, audioLanguageCode: string)

  /** The configuration `create_deck` uses. */
  const Defaults := DeckConfig(5, "640x360", 100, "fre")

  /** One subtitle: its start, end and text. */
  datatype Sub = Sub(start: Condenser.SubRipTime, end: Condenser.SubRipTime, text: string)

  /** The field names of the note model, in order. */
  const FieldNames: seq<string> := ["word", "sentence", "explanation", "word_audio", "sentence_audio", "explanation_audio", "image"]

  const OutputDir := "output"
  const MediaDir := "output/media"

  /** `str(directory / name)`. */
  function InDir(dir: string, name: string): string {
    dir + "/" + name
  }

  // ------------------------------------------------------------ media names

  /** `f'{deck_name}_{i:04d}{ext}'`. */
  function MediaName(deckName: string, i: nat, ext: string): string {
    deckName + "_" + ZeroPad(i, 4) + ext
  }

  function ImageName(deckName: string, i: nat): string { MediaName(deckName, i, ".jpg") }
  function AudioName(deckName: string, i: nat): string { MediaName(deckName, i, ".mp3") }

  /** The number comes back out of the name: between the deck name and its
      underscore and the extension stand the digits of `i`, at least four of
      them and exactly four below 10000. */
  lemma {:induction false} MediaNameParts(deckName: string, i: nat, ext: string)
    ensures var name, d := MediaName(deckName, i, ext), |deckName| + 1;
      var digits := name[d..|name| - |ext|];
      && name[..|deckName|] == deckName && name[|deckName|] == '_'
      && name[|name| - |ext|..] == ext
      && AllDigits(digits) && DigitsValue(digits) == i
      && |digits| >= 4 && (i < 10000 ==> |digits| == 4)
  {
    var name, d := MediaName(deckName, i, ext), |deckName| + 1;
    var z := ZeroPad(i, 4);
    assert name == (deckName + "_") + z + ext;
    assert name[d..|name| - |ext|] == z;
    ZeroPadValue(i, 4);
    assert Pow10(4) == 10000 by {
      assert Pow10(2) == 100;
    }
  }

  /** Different subtitles get different files. */
  lemma {:induction false} MediaNameInjective(deckName: string, i: nat, j: nat, ext: string)
    requires MediaName(deckName, i, ext) == MediaName(deckName, j, ext)
    ensures i == j
  {
    MediaNameParts(deckName, i, ext);
    MediaNameParts(deckName, j, ext);
  }

  /** A screenshot is never an audio clip. */
  lemma {:induction false} ImageIsNotAudio(deckName: string, i: nat, j: nat)
    ensures ImageName(deckName, i) != AudioName(deckName, j)
  {
    var a, b := ImageName(deckName, i), AudioName(deckName, j);
    assert a[|a| - 1] == 'g';
    assert b[|b| - 1] == '3';
  }

  // --------------------------------------------------------------- batching

  /** `(n + size - 1) // size`. */
  function NumBatches(n: nat, size: nat): nat
    requires size > 0
  {
    (n + size - 1) / size
  }

  /** Products keep the order of their factors. */
  lemma MulLe(a: nat, b: nat, size: nat)
    requires a <= b
    ensures a * size <= b * size
  {
  }

  /** The number of batches is `n / size` rounded up. */
  lemma {:induction false} NumBatchesCeiling(n: nat, size: nat)
    requires size > 0
    ensures var b := NumBatches(n, size);
      n <= b * size && (b == 0 || (b - 1) * size < n) && (n == 0 <==> b == 0)
  {
    var b := NumBatches(n, size);
    var r := (n + size - 1) % size;
    assert n + size - 1 == b * size + r && 0 <= r < size;
    if b > 0 {
      assert (b - 1) * size == b * size - size;
    }
  }

  /** How many subtitles the first `i` batches hold: `min(i * size, n)`. */
  function Done(i: nat, size: nat, n: nat): nat {
    if i * size < n then i * size else n
  }

  function BatchStart(i: nat, size: nat): nat { i * size }

  function BatchEnd(i: nat, size: nat, n: nat): nat {
    if (i + 1) * size < n then (i + 1) * size else n
  }

  /** The batch the subtitle at index `k` falls into. */
  function BatchOf(k: nat, size: nat): nat
    requires size > 0
  {
    k / size
  }

  /** Batch `i` is non-empty, holds at most `size` subtitles, and starts
      where the batches before it end. */
  lemma {:induction false} BatchBounds(n: nat, size: nat, i: nat)
    requires size > 0 && i < NumBatches(n, size)
    ensures BatchStart(i, size) == Done(i, size, n) < BatchEnd(i, size, n) == Done(i + 1, size, n)
    ensures BatchEnd(i, size, n) - BatchStart(i, size) <= size
  {
    NumBatchesCeiling(n, size);
    MulLe(i, NumBatches(n, size) - 1, size);
    assert (i + 1) * size == i * size + size;
  }

  /** Subtitle `k` lies in batch `k / size`, and in no other. */
  lemma {:induction false} BatchOfIndex(n: nat, size: nat, k: nat, i: nat)
    requires size > 0 && k < n && i < NumBatches(n, size)
    ensures BatchOf(k, size) < NumBatches(n, size)
    ensures BatchStart(i, size) <= k < BatchEnd(i, size, n) <==> i == BatchOf(k, size)
  {
    var b, q := NumBatches(n, size), BatchOf(k, size);
    var lo, hi := i * size, (i + 1) * size;
    assert hi == lo + size;
    assert q * size <= k < q * size + size by {
      DivBounds(k, size);
    }
    assert q < b by {
      NumBatchesCeiling(n, size);
      if q >= b {
        MulLe(b, q, size);
      }
    }
    if i < q {
      assert hi <= k by {
        MulLe(i + 1, q, size);
      }
    } else if i > q {
      assert k < lo by {
        MulLe(q + 1, i, size);
        assert (q + 1) * size == q * size + size;
      }
    }
  }

  /** Quotient and remainder of a division by a positive size. */
  lemma DivBounds(k: nat, size: nat)
    requires size > 0
    ensures (k / size) * size <= k < (k / size) * size + size
  {
  }

  /** The batches cut `[0, n)` into non-empty consecutive pieces of at most
      `size` subtitles, from `0` to `n`, and subtitle `k` lies in batch
      `k / size` and in no other. */
  lemma {:induction false} BatchesPartition(n: nat, size: nat)
    requires size > 0
    ensures var b := NumBatches(n, size);
      && (b > 0 ==> BatchStart(0, size) == 0 && BatchEnd(b - 1, size, n) == n)
      && (forall i :: 0 <= i < b ==>
            BatchStart(i, size) < BatchEnd(i, size, n) && BatchEnd(i, size, n) - BatchStart(i, size) <= size)
      && (forall i :: 0 <= i && i + 1 < b ==> BatchEnd(i, size, n) == BatchStart(i + 1, size))
      && (forall k :: 0 <= k < n ==> BatchOf(k, size) < b)
      && (forall k, i :: 0 <= k < n && 0 <= i < b ==>
            (BatchStart(i, size) <= k < BatchEnd(i, size, n) <==> i == BatchOf(k, size)))
  {
    var b := NumBatches(n, size);
    NumBatchesCeiling(n, size);
    if b > 0 {
      BatchBounds(n, size, b - 1);
      assert Done(b, size, n) == n;
    }
    forall i | 0 <= i < b
      ensures BatchStart(i, size) < BatchEnd(i, size, n) && BatchEnd(i, size, n) - BatchStart(i, size) <= size
    {
      BatchBounds(n, size, i);
    }
    forall i | 0 <= i && i + 1 < b
      ensures BatchEnd(i, size, n) == BatchStart(i + 1, size)
    {
      BatchBounds(n, size, i);
      BatchBounds(n, size, i + 1);
    }
    forall k, i | 0 <= k < n && 0 <= i < b
      ensures BatchOf(k, size) < b
      ensures BatchStart(i, size) <= k < BatchEnd(i, size, n) <==> i == BatchOf(k, size)
    {
      BatchOfIndex(n, size, k, i);
    }
    forall k | 0 <= k < n
      ensures BatchOf(k, size) < b
    {
      BatchOfIndex(n, size, k, 0);
    }
  }

  // ------------------------------------------------------- media extraction

  /** One screenshot command: the subtitle's span in milliseconds (the
      frame is taken at its midpoint), quality, size and output path. */
  datatype ImageGrab = ImageGrab(start: int, end: int, quality: int, resolution: string, path: string)

  /** One output of a batched audio command: the span, the audio stream's
      language and the output path. */
  datatype AudioClip = AudioClip(start: int, end: int, language: string, path: string)

  function GrabOf(sub: Sub, i: nat, mediaDir: string, deckName: string, config: DeckConfig): ImageGrab {
    ImageGrab(Condenser.SrtTimeToMs(sub.start), Condenser.SrtTimeToMs(sub.end),
              config.imageQuality, config.imageResolution, InDir(mediaDir, ImageName(deckName, i)))
  }

  function ClipOf(sub: Sub, i: nat, mediaDir: string, deckName: string, config: DeckConfig): AudioClip {
    AudioClip(Condenser.SrtTimeToMs(sub.start), Condenser.SrtTimeToMs(sub.end),
              config.audioLanguageCode, InDir(mediaDir, AudioName(deckName, i)))
  }

  /** The clips of subtitles `lo` to `hi - 1`, each named by its index. */
  function Clips(subs: seq<Sub>, mediaDir: string, deckName: string, config: DeckConfig, lo: nat, hi: nat): (r: seq<AudioClip>)
    requires lo <= hi <= |subs|
    ensures |r| == hi - lo
    ensures forall j :: 0 <= j < hi - lo ==> r[j] == ClipOf(subs[lo + j], lo + j, mediaDir, deckName, config)
  {
    seq(hi - lo, j requires 0 <= j < hi - lo => ClipOf(subs[lo + j], lo + j, mediaDir, deckName, config))
  }

  /** Clips of adjacent ranges join into the clips of the whole range. */
  lemma ClipsSplit(subs: seq<Sub>, mediaDir: string, deckName: string, config: DeckConfig, lo: nat, mid: nat, hi: nat)
    requires lo <= mid <= hi <= |subs|
    ensures Clips(subs, mediaDir, deckName, config, lo, mid) + Clips(subs, mediaDir, deckName, config, mid, hi)
         == Clips(subs, mediaDir, deckName, config, lo, hi)
  {
    var a, b := Clips(subs, mediaDir, deckName, config, lo, mid), Clips(subs, mediaDir, deckName, config, mid, hi);
    var c := Clips(subs, mediaDir, deckName, config, lo, hi);
    forall j | 0 <= j < hi - lo
      ensures (a + b)[j] == c[j]
    {
      if j >= mid - lo {
        assert (a + b)[j] == b[j - (mid - lo)];
      }
    }
  }

  /** All the batches' outputs, in order. */
  function Concat<T>(xss: seq<seq<T>>): seq<T> {
    if xss == [] then [] else Concat(xss[..|xss| - 1]) + xss[|xss| - 1]
  }

  /** The outputs of one batched audio command: `subs[lo:hi]`, each clip
      named by its index in the whole file. */
  method BatchCommand(subs: seq<Sub>, mediaDir: string, deckName: string, config: DeckConfig, lo: nat, hi: nat)
    returns (command: seq<AudioClip>)
    requires lo <= hi <= |subs|
    ensures command == Clips(subs, mediaDir, deckName, config, lo, hi)
  {
    var batchSubs := subs[lo..hi];
    command := [];
    for j := 0 to |batchSubs|
      invariant command == Clips(subs, mediaDir, deckName, config, lo, lo + j)
    {
      var subIndex := lo + j;
      command := command + [ClipOf(batchSubs[j], subIndex, mediaDir, deckName, config)];
      assert Clips(subs, mediaDir, deckName, config, subIndex, subIndex + 1)
          == [ClipOf(subs[subIndex], subIndex, mediaDir, deckName, config)];
      ClipsSplit(subs, mediaDir, deckName, config, lo, subIndex, subIndex + 1);
    }
  }

  /** `_extract_media`: a screenshot command per subtitle, then one audio
      command per batch holding an output per subtitle of the batch.  Each
      batch holds exactly its subtitles' clips, and all the batches
      together hold every subtitle's clip once, in order. */
  method ExtractMedia(subs: seq<Sub>, mediaDir: string, deckName: string, config: DeckConfig)
    returns (images: seq<ImageGrab>, batches: seq<seq<AudioClip>>)
    requires config.audioBatchSize > 0
    ensures |images| == |subs|
    ensures forall i :: 0 <= i < |subs| ==> images[i] == GrabOf(subs[i], i, mediaDir, deckName, config)
    ensures |batches| == NumBatches(|subs|, config.audioBatchSize)
    ensures forall i :: 0 <= i < |batches| ==>
      var size := config.audioBatchSize;
      && BatchStart(i, size) <= BatchEnd(i, size, |subs|)
      && batches[i] == Clips(subs, mediaDir, deckName, config, BatchStart(i, size), BatchEnd(i, size, |subs|))
    ensures Concat(batches) == Clips(subs, mediaDir, deckName, config, 0, |subs|)
  {
    var numSubs := |subs|;
    images := [];
    for i := 0 to numSubs
      invariant |images| == i
      invariant forall k :: 0 <= k < i ==> images[k] == GrabOf(subs[k], k, mediaDir, deckName, config)
    {
      images := images + [GrabOf(subs[i], i, mediaDir, deckName, config)];
    }

    batches := AudioBatches(subs, mediaDir, deckName, config);
  }

  /** The audio half of `_extract_media`: one command per batch of
      `audio_batch_size` subtitles. */
  method AudioBatches(subs: seq<Sub>, mediaDir: string, deckName: string, config: DeckConfig)
    returns (batches: seq<seq<AudioClip>>)
    requires config.audioBatchSize > 0
    ensures |batches| == NumBatches(|subs|, config.audioBatchSize)
    ensures forall i :: 0 <= i < |batches| ==>
      var size := config.audioBatchSize;
      && BatchStart(i, size) <= BatchEnd(i, size, |subs|)
      && batches[i] == Clips(subs, mediaDir, deckName, config, BatchStart(i, size), BatchEnd(i, size, |subs|))
    ensures Concat(batches) == Clips(subs, mediaDir, deckName, config, 0, |subs|)
  {
    var numSubs := |subs|;
    var size := config.audioBatchSize;
    var numBatches := (numSubs + size - 1) / size;
    batches := [];
    for i := 0 to numBatches
      invariant |batches| == i
      invariant forall b :: 0 <= b < i ==>
        && BatchStart(b, size) <= BatchEnd(b, size, numSubs)
        && batches[b] == Clips(subs, mediaDir, deckName, config, BatchStart(b, size), BatchEnd(b, size, numSubs))
      invariant Concat(batches) == Clips(subs, mediaDir, deckName, config, 0, Done(i, size, numSubs))
    {
      BatchBounds(numSubs, size, i);
      var batchStart := i * size;
      var batchEnd := if (i + 1) * size < numSubs then (i + 1) * size else numSubs;
      var command := BatchCommand(subs, mediaDir, deckName, config, batchStart, batchEnd);
      ClipsSplit(subs, mediaDir, deckName, config, 0, batchStart, batchEnd);
      ghost var prev := batches;
      batches := batches + [command];
      assert batches[..i] == prev;
    }
    NumBatchesCeiling(numSubs, size);
    assert Done(numBatches, size, numSubs) == numSubs;
  }

  // ------------------------------------------------------------------ notes

  /** `sub.text.split()[0] if sub.text else ''`; `None` where `split()[0]`
      raises. */
  function Word(text: string): Option<string> {
    if text == [] then Some([]) else FirstWord(text)
  }

  /** The word is missing exactly for text that is non-empty and all
      whitespace; otherwise it is empty for empty text and the first
      whitespace-separated word of the rest. */
  lemma WordCases(text: string)
    ensures Word(text).None? <==> text != [] && AllSpace(text)
    ensures text == [] ==> Word(text) == Some([])
    ensures text != [] && Word(text).Some? ==>
      var w := Word(text).value;
      w != [] && NoSpace(w) && SpaceRun(text) + |w| <= |text| && text[SpaceRun(text)..SpaceRun(text) + |w|] == w
  {
  }

  /** `field_content`: the text of each field a note fills. */
  function Content(word: string, text: string, imageFile: string, audioFile: string): map<string, string> {
    map["word" := word, "sentence" := text, "explanation" := "", "word_audio" := "",
        "explanation_audio" := "", "sentence_audio" := "[sound:" + audioFile + "]",
        "image" := "<img src=\"" + imageFile + "\">"]
  }

  /** `[field_content.get(name, '') for name in model_field_names]`. */
  function OrderedFields(names: seq<string>, content: map<string, string>): seq<string> {
    seq(|names|, i requires 0 <= i < |names| => if names[i] in content then content[names[i]] else "")
  }

  /** Field `i` of the note holds the content of the model's field `i`, and
      `''` where nothing is given for that name. */
  lemma OrderedFieldsFollowNames(names: seq<string>, content: map<string, string>)
    ensures |OrderedFields(names, content)| == |names|
    ensures forall i :: 0 <= i < |names| && names[i] in content ==> OrderedFields(names, content)[i] == content[names[i]]
    ensures forall i :: 0 <= i < |names| && names[i] !in content ==> OrderedFields(names, content)[i] == ""
  {
  }

  /** With the model's seven field names, a note reads: the word, the
      sentence, three empty fields around the sentence audio, and the
      image. */
  lemma {:induction false} FieldsOfModel(word: string, text: string, imageFile: string, audioFile: string)
    ensures OrderedFields(FieldNames, Content(word, text, imageFile, audioFile))
         == [word, text, "", "", "[sound:" + audioFile + "]", "", "<img src=\"" + imageFile + "\">"]
  {
    var c := Content(word, text, imageFile, audioFile);
    assert FieldNames[4] == "sentence_audio" && c["sentence_audio"] == "[sound:" + audioFile + "]";
    assert FieldNames[6] == "image" && c["image"] == "<img src=\"" + imageFile + "\">";
  }

  /** Both media files of subtitle `i` were extracted. */
  predicate HasMedia(present: set<string>, mediaDir: string, deckName: string, i: nat) {
    InDir(mediaDir, ImageName(deckName, i)) in present && InDir(mediaDir, AudioName(deckName, i)) in present
  }

  /** The fields of the note for subtitle `i`. */
  function NoteOf(names: seq<string>, word: string, text: string, deckName: string, i: nat): seq<string> {
    OrderedFields(names, Content(word, text, ImageName(deckName, i), AudioName(deckName, i)))
  }

  /** What note creation has built: the notes added to the deck and the
      media files to package. */
  datatype Built = Built(notes: seq<seq<string>>, media: seq<string>)

  /** Why note creation raises: the `IndexError` of `split()[0]` on the
      subtitle at `index`. */
  datatype NoteError = NoWord(index: nat)

  /** Note creation over the first `k` subtitles. */
  function NotesUpTo(subs: seq<Sub>, names: seq<string>, deckName: string, mediaDir: string, present: set<string>, k: nat)
    : Result<Built, NoteError>
    requires k <= |subs|
  {
    if k == 0 then Ok(Built([], []))
    else
      match NotesUpTo(subs, names, deckName, mediaDir, present, k - 1)
      case Err(e) => Err(e)
      case Ok(b) =>
        if !HasMedia(present, mediaDir, deckName, k - 1) then Ok(b)
        else
          match Word(subs[k - 1].text)
          case None => Err(NoWord(k - 1))
          case Some(w) =>
            Ok(Built(b.notes + [NoteOf(names, w, subs[k - 1].text, deckName, k - 1)],
                     b.media + [InDir(mediaDir, ImageName(deckName, k - 1)), InDir(mediaDir, AudioName(deckName, k - 1))]))
  }

  /** The indices below `k` of the subtitles with both media files, in
      order. */
  function Made(present: set<string>, mediaDir: string, deckName: string, k: nat): seq<nat> {
    if k == 0 then []
    else Made(present, mediaDir, deckName, k - 1) + (if HasMedia(present, mediaDir, deckName, k - 1) then [k - 1] else [])
  }

  /** `Made` lists, in increasing order, exactly the indices below `k`
      whose two files exist. */
  lemma {:induction false} MadeFacts(present: set<string>, mediaDir: string, deckName: string, k: nat)
    ensures var m := Made(present, mediaDir, deckName, k);
      && (forall j :: 0 <= j < |m| ==> m[j] < k && HasMedia(present, mediaDir, deckName, m[j]))
      && (forall j, l :: 0 <= j < l < |m| ==> m[j] < m[l])
      && (forall i :: 0 <= i < k && HasMedia(present, mediaDir, deckName, i) ==> i in m)
  {
    if k > 0 {
      MadeFacts(present, mediaDir, deckName, k - 1);
    }
  }

  /** Note creation fails only on a subtitle with both files whose text is
      whitespace only, the first such one; it succeeds exactly when there
      is none. */
  lemma {:induction false} NotesUpToOk(subs: seq<Sub>, names: seq<string>, deckName: string, mediaDir: string, present: set<string>, k: nat)
    requires k <= |subs|
    ensures var r := NotesUpTo(subs, names, deckName, mediaDir, present, k);
      && (r.Ok? <==> forall i :: 0 <= i < k && HasMedia(present, mediaDir, deckName, i) ==> Word(subs[i].text).Some?)
      && (r.Err? ==>
            var i := r.error.index;
            && i < k && HasMedia(present, mediaDir, deckName, i) && Word(subs[i].text).None?
            && NotesUpTo(subs, names, deckName, mediaDir, present, i).Ok?)
  {
    if k > 0 {
      NotesUpToOk(subs, names, deckName, mediaDir, present, k - 1);
    }
  }

  /** `b` holds one note per index of `m`, in order, each filled from its
      subtitle, and exactly the image then the audio path of each. */
  predicate Shaped(subs: seq<Sub>, names: seq<string>, deckName: string, mediaDir: string, b: Built, m: seq<nat>) {
    && |b.notes| == |m| && |b.media| == 2 * |m|
    && forall j :: 0 <= j < |m| ==>
         && m[j] < |subs| && Word(subs[m[j]].text).Some?
         && b.notes[j] == NoteOf(names, Word(subs[m[j]].text).value, subs[m[j]].text, deckName, m[j])
         && b.media[2 * j] == InDir(mediaDir, ImageName(deckName, m[j]))
         && b.media[2 * j + 1] == InDir(mediaDir, AudioName(deckName, m[j]))
  }

  /** One more note and its two paths keep the shape. */
  lemma ShapedSnoc(subs: seq<Sub>, names: seq<string>, deckName: string, mediaDir: string, b: Built, m: seq<nat>, i: nat, w: string)
    requires Shaped(subs, names, deckName, mediaDir, b, m) && i < |subs| && Word(subs[i].text) == Some(w)
    ensures Shaped(subs, names, deckName, mediaDir,
                   Built(b.notes + [NoteOf(names, w, subs[i].text, deckName, i)],
                         b.media + [InDir(mediaDir, ImageName(deckName, i)), InDir(mediaDir, AudioName(deckName, i))]),
                   m + [i])
  {
    var b1 := Built(b.notes + [NoteOf(names, w, subs[i].text, deckName, i)],
                    b.media + [InDir(mediaDir, ImageName(deckName, i)), InDir(mediaDir, AudioName(deckName, i))]);
    var m1 := m + [i];
    forall j | 0 <= j < |m1|
      ensures m1[j] < |subs| && Word(subs[m1[j]].text).Some?
      ensures b1.notes[j] == NoteOf(names, Word(subs[m1[j]].text).value, subs[m1[j]].text, deckName, m1[j])
      ensures b1.media[2 * j] == InDir(mediaDir, ImageName(deckName, m1[j]))
      ensures b1.media[2 * j + 1] == InDir(mediaDir, AudioName(deckName, m1[j]))
    {
      if j < |m| {
        assert m1[j] == m[j] && b1.notes[j] == b.notes[j];
        assert b1.media[2 * j] == b.media[2 * j] && b1.media[2 * j + 1] == b.media[2 * j + 1];
      }
    }
  }

  /** A successful run makes one note per subtitle with both files, in
      order, each filled from its subtitle, and lists exactly the image
      then the audio path of each. */
  lemma {:induction false} NotesUpToShape(subs: seq<Sub>, names: seq<string>, deckName: string, mediaDir: string, present: set<string>, k: nat)
    requires k <= |subs| && NotesUpTo(subs, names, deckName, mediaDir, present, k).Ok?
    ensures Shaped(subs, names, deckName, mediaDir, NotesUpTo(subs, names, deckName, mediaDir, present, k).value, Made(present, mediaDir, deckName, k))
  {
    if k > 0 {
      NotesUpToShape(subs, names, deckName, mediaDir, present, k - 1);
      if HasMedia(present, mediaDir, deckName, k - 1) {
        var b0, m0 := NotesUpTo(subs, names, deckName, mediaDir, present, k - 1).value, Made(present, mediaDir, deckName, k - 1);
        ShapedSnoc(subs, names, deckName, mediaDir, b0, m0, k - 1, Word(subs[k - 1].text).value);
      }
    }
  }

  /** Once note creation has raised, later subtitles change nothing. */
  lemma {:induction false} NotesUpToStaysErr(subs: seq<Sub>, names: seq<string>, deckName: string, mediaDir: string, present: set<string>, k: nat, l: nat)
    requires k <= l <= |subs| && NotesUpTo(subs, names, deckName, mediaDir, present, k).Err?
    ensures NotesUpTo(subs, names, deckName, mediaDir, present, l) == NotesUpTo(subs, names, deckName, mediaDir, present, k)
    decreases l - k
  {
    if k < l {
      NotesUpToStaysErr(subs, names, deckName, mediaDir, present, k, l - 1);
    }
  }

  /** A `genanki.Deck`: the notes added to it. */
  class AnkiDeck {
    var notes: seq<seq<string>>

    constructor ()
      ensures notes == []
    {
      notes := [];
    }

    method AddNote(fields: seq<string>)
      modifies this
      ensures notes == old(notes) + [fields]
    {
      notes := notes + [fields];
    }
  }

  /** `_create_anki_notes`: for each subtitle whose image and audio files
      exist, a note added to the deck and its two paths added to the media
      list; raises on such a subtitle whose text is whitespace only. */
  method CreateNotes(subs: seq<Sub>, deckName: string, names: seq<string>, deck: AnkiDeck, mediaDir: string, present: set<string>)
    returns (r: Result<seq<string>, NoteError>)
    modifies deck
    ensures var spec := NotesUpTo(subs, names, deckName, mediaDir, present, |subs|);
      && (spec.Err? ==> r == Err(spec.error))
      && (spec.Ok? ==> r == Ok(spec.value.media) && deck.notes == old(deck.notes) + spec.value.notes)
  {
    var mediaFiles: seq<string> := [];
    for i := 0 to |subs|
      invariant NotesUpTo(subs, names, deckName, mediaDir, present, i).Ok?
      invariant mediaFiles == NotesUpTo(subs, names, deckName, mediaDir, present, i).value.media
      invariant deck.notes == old(deck.notes) + NotesUpTo(subs, names, deckName, mediaDir, present, i).value.notes
    {
      var baseFilename := deckName + "_" + ZeroPad(i, 4);
      var imageFilename := baseFilename + ".jpg";
      var audioFilename := baseFilename + ".mp3";
      var imagePath := InDir(mediaDir, imageFilename);
      var audioPath := InDir(mediaDir, audioFilename);
      if imagePath in present && audioPath in present {
        var word := Word(subs[i].text);
        if word.None? {
          NotesUpToStaysErr(subs, names, deckName, mediaDir, present, i + 1, |subs|);
          return Err(NoWord(i));
        }
        var fields := OrderedFields(names, Content(word.value, subs[i].text, imageFilename, audioFilename));
        deck.AddNote(fields);
        mediaFiles := mediaFiles + [imagePath, audioPath];
      }
    }
    return Ok(mediaFiles);
  }

  /** The package `create_deck` writes: its notes, media files and path. */
  datatype Package = Package(notes: seq<seq<string>>, media: seq<string>, path: string)

  /** `output/{deck_name}.apkg`. */
  function DeckPath(deckName: string): string {
    InDir(OutputDir, deckName + ".apkg")
  }

  /** `create_deck`: `None` when the video or the subtitle file is missing
      or no note was made; otherwise the package of every note, with its
      media files, written to the deck path, which is returned.  `present`
      stands for the files the extraction left in the fresh media
      directory. */
  method CreateDeck(videoExists: bool, srtExists: bool, deckName: string, subs: seq<Sub>, present: set<string>)
    returns (r: Result<Option<string>, NoteError>, package: Option<Package>)
    ensures !(videoExists && srtExists) ==> r == Ok(None) && package == None
    ensures videoExists && srtExists ==>
      var spec := NotesUpTo(subs, FieldNames, deckName, MediaDir, present, |subs|);
      && (spec.Err? ==> r == Err(spec.error) && package == None)
      && (spec.Ok? && spec.value.notes == [] ==> r == Ok(None) && package == None)
      && (spec.Ok? && spec.value.notes != [] ==>
            r == Ok(Some(DeckPath(deckName))) && package == Some(Package(spec.value.notes, spec.value.media, DeckPath(deckName))))
  {
    var outputDeckPath := DeckPath(deckName);
    if !videoExists || !srtExists {
      return Ok(None), None;
    }
    var deck := new AnkiDeck();
    var images, batches := ExtractMedia(subs, MediaDir, deckName, Defaults);
    var mediaFiles := CreateNotes(subs, deckName, FieldNames, deck, MediaDir, present);
    ghost var spec := NotesUpTo(subs, FieldNames, deckName, MediaDir, present, |subs|);
    assert spec.Ok? ==> deck.notes == [] + spec.value.notes == spec.value.notes;
    if mediaFiles.Err? {
      return Err(mediaFiles.error), None;
    }
    if deck.notes != [] {
      return Ok(Some(outputDeckPath)), Some(Package(deck.notes, mediaFiles.value, outputDeckPath));
    }
    return Ok(None), None;
  }
}
