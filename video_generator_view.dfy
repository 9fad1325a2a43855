/** The video generator view (components/views/VideoGeneratorView.tsx):
    the rotation of the loading messages while a video is generated, the
    interval that drives it, the input guard of `handleGenerate`, how its
    outcome is shown, and the two reset handlers. */
module VideoGeneratorView {
  import opened Wrappers
  import opened JsText

  const LoadingMessages: seq<string> := [
    "Initializing quantum loom...",
    "Weaving photonic threads...",
    "Calibrating temporal flux...",
    "Rendering kinetic reality...",
    "This can take a few minutes...",
    "Binding motion to concept...",
    "Finalizing the visual stream..."
  ]

  const MissingInput: string := "Please enter a prompt or upload an image."
  const InvalidKey: string := "API Key is invalid. Please select a valid key."
  const KeyNotFound: string := "Requested entity was not found"
  const GenerationFailed: string := "Generation failed: "
  const UnknownError: string := "An unknown error occurred."

  /** No entry of `list` occurs twice. */
  predicate Distinct<T(==)>(list: seq<T>) {
    forall i, j :: 0 <= i < j < |list| ==> list[i] != list[j]
  }

  /** The loading messages are pairwise distinct: they already differ in
      their first characters. */
  lemma LoadingMessagesDistinct()
    ensures |LoadingMessages| == 7 && Distinct(LoadingMessages)
  {
    forall i, j | 0 <= i < j < |LoadingMessages|
      ensures LoadingMessages[i] != LoadingMessages[j]
    {
      assert LoadingMessages[i][0] != LoadingMessages[j][0];
    }
  }

  /** `list.indexOf(x)`: the first position holding `x`, or -1. */
  function IndexOf<T(==)>(list: seq<T>, x: T): (i: int)
    ensures -1 <= i < |list|
    ensures i >= 0 ==> list[i] == x && forall k :: 0 <= k < i ==> list[k] != x
    ensures i == -1 <==> x !in list
  {
    if list == [] then -1
    else if list[0] == x then 0
    else
      var j := IndexOf(list[1..], x);
      if j == -1 then -1 else j + 1
  }

  /** The updater passed to `setLoadingMessage` on each tick, over the
      message list `list`. */
  function NextMessage<T(==)>(list: seq<T>, prev: T): (next: T)
    requires list != []
    ensures next in list
  {
    list[Successor(IndexOf(list, prev), |list|)]
  }

  /** `(index + 1) % size` for an `indexOf` result: the next position,
      or 0 past the end. */
  function Successor(index: int, size: nat): (next: nat)
    requires -1 <= index < size && 0 < size
    ensures next == if index + 1 < size then index + 1 else 0
  {
    if index + 1 < size then ModuloBelow(index + 1, size); (index + 1) % size
    else ModuloSelf(size); (index + 1) % size
  }

  lemma ModuloBelow(x: int, m: int)
    requires 0 <= x < m
    ensures x % m == x
  {
  }

  lemma ModuloSelf(m: int)
    requires 0 < m
    ensures m % m == 0
  {
  }

  /** The rotation over `LOADING_MESSAGES` itself. */
  function NextLoadingMessage(prev: string): (next: string)
    ensures next in LoadingMessages
  {
    NextMessage(LoadingMessages, prev)
  }

  /** In a list without repeats, entry `i` is followed by entry
      `(i + 1) mod |list|`: the last wraps to the first. */
  lemma RotationStep<T>(list: seq<T>, i: nat)
    requires Distinct(list) && i < |list|
    ensures NextMessage(list, list[i]) == list[if i + 1 < |list| then i + 1 else 0]
  {
    assert list[i] in list;
  }

  /** A message not in the list (`indexOf` gives -1) rotates to the first
      entry. */
  lemma UnknownRotatesToFirst<T>(list: seq<T>, prev: T)
    requires list != [] && prev !in list
    ensures NextMessage(list, prev) == list[0]
  {
  }

  /** The message after `n` ticks. */
  function Rotations<T(==)>(list: seq<T>, m: T, n: nat): T
    requires list != []
  {
    if n == 0 then m else Rotations(list, NextMessage(list, m), n - 1)
  }

  /** `k` taken back into `0..size` after at most one full round. */
  function Wrap(k: nat, size: nat): nat {
    if k < size then k else k - size
  }

  /** Up to a full round, `n` ticks move entry `i` on `n` places, wrapping
      past the end. */
  lemma {:induction false} RotationsAdvance<T>(list: seq<T>, i: nat, n: nat)
    requires Distinct(list) && i < |list| && n <= |list|
    ensures Rotations(list, list[i], n) == list[Wrap(i + n, |list|)]
    decreases n
  {
    if n > 0 {
      var next := if i + 1 < |list| then i + 1 else 0;
      RotationStep(list, i);
      RotationsAdvance(list, next, n - 1);
      assert Wrap(next + (n - 1), |list|) == Wrap(i + n, |list|);
    }
  }

  /** Seven ticks bring any of the seven loading messages back; any other
      message becomes one of them after a single tick. */
  lemma SevenRotationsReturn(m: string)
    ensures m in LoadingMessages ==> Rotations(LoadingMessages, m, 7) == m
    ensures Rotations(LoadingMessages, m, 1) in LoadingMessages
  {
    LoadingMessagesDistinct();
    if m in LoadingMessages {
      var i := IndexOf(LoadingMessages, m);
      RotationsAdvance(LoadingMessages, i, 7);
    }
  }

  /** What the `catch` shows for an error with `message` (None when the
      thrown value is not an `Error`), and whether the key stays selected. */
  function FailureShown(message: Option<string>): (r: (string, bool))
  {
    var errorMessage := if message.Some? then message.value else UnknownError;
    if Contains(errorMessage, KeyNotFound) then (InvalidKey, false)
    else (GenerationFailed + errorMessage, true)
  }

  /** A failure either reports an invalid key and deselects it, or reports
      the error text after a fixed prefix and keeps the key; the first
      happens exactly when the text mentions the missing entity. */
  lemma FailureShownCases(message: Option<string>)
    ensures var text := if message.Some? then message.value else UnknownError;
      && (FailureShown(message) == (InvalidKey, false) <==> Contains(text, KeyNotFound))
      && (!Contains(text, KeyNotFound) ==>
            && FailureShown(message).1
            && FailureShown(message).0[..|GenerationFailed|] == GenerationFailed
            && FailureShown(message).0[|GenerationFailed|..] == text)
  {
    var text := if message.Some? then message.value else UnknownError;
    if !Contains(text, KeyNotFound) {
      assert FailureShown(message).0 == GenerationFailed + text;
    }
  }

  datatype AspectRatio = Landscape | Portrait

  /** A file chosen in the picker, by identity. */
  type FileHandle = nat

  /** How a generation ends: a video URL, or an error with its message
      (None when the thrown value is not an `Error`). */
  datatype Outcome = Video(url: string) | Failed(message: Option<string>)

  class VideoGenerator {
    var prompt: string
    var aspectRatio: AspectRatio
    var imageFile: Option<FileHandle>
    var imageUrl: Option<string>
    /** The file input behind `fileInputRef`: `Some(value)` while it is
        rendered, None while the key panel replaces the form or the image
        preview takes its place. */
    var picker: Option<string>
    var isLoading: bool
    var loadingMessage: string
    var error: Option<string>
    var generatedVideoUrl: Option<string>
    var apiKeySelected: bool

    /** `loadingIntervalRef.current` (0 for null), the next handle
        `setInterval` gives out, the intervals still running, and the
        `isLoading` the loading effect last ran with. */
    var interval: nat
    var nextHandle: nat
    ghost var live: set<nat>
    var effectLoading: bool

    ghost predicate Valid()
      reads this
    {
      && 0 < nextHandle && interval < nextHandle
      && live == (if effectLoading then {interval} else {})
      && (effectLoading <==> interval != 0)
    }

    constructor ()
      ensures Valid()
      ensures prompt == "" && aspectRatio == Landscape && imageFile == None && imageUrl == None
      ensures !isLoading && loadingMessage == LoadingMessages[0] && error == None
      ensures generatedVideoUrl == None && !apiKeySelected && live == {}
      ensures PickerRendered() && picker == None
    {
      prompt, aspectRatio, imageFile, imageUrl, picker := "", Landscape, None, None, None;
      isLoading, loadingMessage, error, generatedVideoUrl, apiKeySelected := false, LoadingMessages[0], None, None, false;
      interval, nextHandle, live, effectLoading := 0, 1, {}, false;
    }

    method SetPrompt(text: string)
      modifies this`prompt
      ensures prompt == text
    {
      prompt := text;
    }

    method SetAspectRatio(ratio: AspectRatio)
      modifies this`aspectRatio
      ensures aspectRatio == ratio
    {
      aspectRatio := ratio;
    }

    /** The file input is rendered exactly when the form is (a key is
        selected) and the form shows no preview. */
    predicate PickerRendered()
      reads this
    {
      picker.Some? <==> apiKeySelected && imageUrl == None
    }

    /** A render: the input is unmounted while the key panel or a preview
        is shown, and an input that is mounted anew is empty. */
    method RenderImageArea()
      modifies this`picker
      ensures PickerRendered()
      ensures apiKeySelected && imageUrl == None && old(picker).Some? ==> picker == old(picker)
      ensures apiKeySelected && imageUrl == None && old(picker).None? ==> picker == Some("")
    {
      if !apiKeySelected || imageUrl != None {
        picker := None;
      } else if picker == None {
        picker := Some("");
      }
    }

    /** The mount effect's `checkApiKey`, once the host has answered:
        `selected` is whether the host exists and reports a selected key.
        Only a selected key changes anything; the form then replaces the
        key panel. */
    method KeyChecked(selected: bool)
      modifies this`apiKeySelected, this`picker
      ensures apiKeySelected == (old(apiKeySelected) || selected)
      ensures PickerRendered()
      ensures old(PickerRendered()) && apiKeySelected == old(apiKeySelected) ==> picker == old(picker)
      ensures old(PickerRendered()) && !old(apiKeySelected) && selected && imageUrl == None ==> picker == Some("")
    {
      if selected {
        apiKeySelected := true;
      }
      RenderImageArea();
    }

    /** `handleSelectKey`, once the host's key dialog has closed: with a
        host the key is taken as selected whatever was chosen; without one
        nothing changes. */
    method SelectKey(hostPresent: bool)
      modifies this`apiKeySelected, this`picker
      ensures apiKeySelected == (old(apiKeySelected) || hostPresent)
      ensures PickerRendered()
      ensures old(PickerRendered()) && apiKeySelected == old(apiKeySelected) ==> picker == old(picker)
      ensures old(PickerRendered()) && !old(apiKeySelected) && hostPresent && imageUrl == None ==> picker == Some("")
    {
      if hostPresent {
        apiKeySelected := true;
      }
      RenderImageArea();
    }

    /** `handleImageUpload`, fired by the rendered input once the browser
        has set its value to `value`: a chosen file and its object URL `url`
        are kept and the preview replaces the input; an empty choice
        changes nothing else. */
    method ImageUpload(file: Option<FileHandle>, value: string, url: string)
      requires PickerRendered() && picker.Some?
      modifies this`imageFile, this`imageUrl, this`picker
      ensures PickerRendered()
      ensures file.Some? ==> imageFile == file && imageUrl == Some(url) && picker == None
      ensures file.None? ==> imageFile == old(imageFile) && imageUrl == old(imageUrl) && picker == Some(value)
    {
      picker := Some(value);
      if file.Some? {
        imageFile := file;
        imageUrl := Some(url);
      }
      RenderImageArea();
    }

    /** `handleImageReset`: no image and no preview. The input's value is
        cleared through the ref only when the input is rendered; from the
        preview's remove button it is not, and the next render mounts it
        empty. Either way the picker is back and empty. */
    method ImageReset()
      requires PickerRendered()
      modifies this`imageFile, this`imageUrl, this`picker
      ensures imageFile == None && imageUrl == None
      ensures PickerRendered() && (apiKeySelected ==> picker == Some(""))
    {
      imageFile := None;
      imageUrl := None;
      if picker.Some? {
        picker := Some("");
      }
      RenderImageArea();
    }

    /** `handleGenerate` up to the request: with neither a prompt nor an
        image only the error is set; otherwise loading starts with no error
        and no video. The loading message is not reset. */
    method Generate()
      modifies this`isLoading, this`error, this`generatedVideoUrl
      ensures prompt == "" && imageFile == None ==>
        error == Some(MissingInput) && isLoading == old(isLoading) && generatedVideoUrl == old(generatedVideoUrl)
      ensures !(prompt == "" && imageFile == None) ==>
        isLoading && error == None && generatedVideoUrl == None
    {
      if prompt == "" && imageFile == None {
        error := Some(MissingInput);
        return;
      }
      isLoading := true;
      error := None;
      generatedVideoUrl := None;
    }

    /** The end of `handleGenerate`: the video or the failure is shown and
        loading stops. */
    method GenerationEnded(outcome: Outcome)
      modifies this`isLoading, this`error, this`generatedVideoUrl, this`apiKeySelected, this`picker
      ensures !isLoading
      ensures PickerRendered()
      ensures old(PickerRendered()) && apiKeySelected == old(apiKeySelected) ==> picker == old(picker)
      ensures outcome.Video? ==>
        generatedVideoUrl == Some(outcome.url) && error == old(error) && apiKeySelected == old(apiKeySelected)
      ensures outcome.Failed? ==>
        && generatedVideoUrl == old(generatedVideoUrl)
        && error == Some(FailureShown(outcome.message).0)
        && apiKeySelected == (old(apiKeySelected) && FailureShown(outcome.message).1)
    {
      match outcome {
        case Video(url) =>
          generatedVideoUrl := Some(url);
        case Failed(message) =>
          var errorMessage := if message.Some? then message.value else UnknownError;
          if Contains(errorMessage, KeyNotFound) {
            error := Some(InvalidKey);
            apiKeySelected := false;
          } else {
            error := Some(GenerationFailed + errorMessage);
          }
      }
      isLoading := false;
      RenderImageArea();
    }

    /** `handleReset`: every input and result back to its initial value. */
    method Reset()
      requires PickerRendered()
      modifies this`prompt, this`aspectRatio, this`imageFile, this`imageUrl, this`picker,
        this`error, this`generatedVideoUrl, this`isLoading
      ensures prompt == "" && aspectRatio == Landscape && imageFile == None && imageUrl == None
      ensures PickerRendered() && (apiKeySelected ==> picker == Some(""))
      ensures error == None && generatedVideoUrl == None && !isLoading
    {
      prompt := "";
      aspectRatio := Landscape;
      ImageReset();
      error := None;
      generatedVideoUrl := None;
      isLoading := false;
    }

    /** A tick of a running interval: the next message is shown. */
    method Tick(handle: nat)
      requires handle in live
      modifies this`loadingMessage
      ensures loadingMessage == NextLoadingMessage(old(loadingMessage))
    {
      loadingMessage := NextLoadingMessage(loadingMessage);
    }

    /** A render is committed. When `isLoading` changed since the loading
        effect last ran, the previous run's cleanup clears the interval in
        the ref (without nulling it), then the effect starts a new interval
        when loading, or clears and nulls the ref when not. Afterwards
        exactly one interval runs while loading and none otherwise. */
    method Commit()
      requires Valid()
      modifies this`interval, this`nextHandle, this`live, this`effectLoading
      ensures Valid() && effectLoading == isLoading
      ensures live == (if isLoading then {interval} else {})
      ensures old(effectLoading) == isLoading ==> live == old(live) && interval == old(interval)
      ensures old(effectLoading) != isLoading && isLoading ==> interval !in old(live) && interval == old(nextHandle)
    {
      if effectLoading == isLoading {
        return;
      }
      // The cleanup of the previous run.
      if interval != 0 {
        live := live - {interval};
      }
      if isLoading {
        interval := nextHandle;
        live := live + {nextHandle};
        nextHandle := nextHandle + 1;
      } else if interval != 0 {
        live := live - {interval};
        interval := 0;
      }
      effectLoading := isLoading;
    }

    /** Unmounting runs the last cleanup: no interval is left running. */
    method Unmount()
      requires Valid()
      modifies this`live
      ensures live == {}
    {
      if interval != 0 {
        live := live - {interval};
      }
    }
  }

  /** A generation on a fresh view: the guard rejects the empty form and
      leaves loading off; with a prompt, loading starts one interval, and
      once the video arrives the ref is null again and no interval is left
      running. */
  method GenerateOnFreshView() returns (rejected: Option<string>, loadingRef: nat, intervalRef: nat, video: Option<string>)
    ensures rejected == Some(MissingInput) && loadingRef != 0
    ensures intervalRef == 0 && video == Some("blob:video")
  {
    var v := new VideoGenerator();
    v.KeyChecked(true);
    v.Generate();
    v.Commit();
    rejected := v.error;
    v.SetPrompt("a fox in the snow");
    v.Generate();
    v.Commit();
    loadingRef := v.interval;
    v.GenerationEnded(Video("blob:video"));
    v.Commit();
    assert v.live == {};
    intervalRef, video := v.interval, v.generatedVideoUrl;
  }

  /** Upload an image, then remove it with the preview's button: while the
      handler runs the input is not rendered, so the ref has nothing to
      clear, and the input comes back empty with the next render. */
  method UploadThenRemove() returns (inputWhenRemoved: Option<string>, inputAfter: Option<string>, file: Option<FileHandle>)
    ensures inputWhenRemoved == None && inputAfter == Some("") && file == None
  {
    var v := new VideoGenerator();
    v.KeyChecked(true);
    v.ImageUpload(Some(7), "fox.png", "blob:image");
    inputWhenRemoved := v.picker;
    v.ImageReset();
    inputAfter, file := v.picker, v.imageFile;
  }

  /** The key panel and the form: a fresh view shows the panel, so there
      is no file input until the host reports a key; a failure that says
      the key is not found brings the panel back and unmounts the input,
      which comes back empty once a key is selected again. */
  method KeyLostThenSelected() returns (onMount: Option<string>, afterCheck: Option<string>,
                                       afterFailure: Option<string>, afterSelect: Option<string>)
    ensures onMount == None && afterCheck == Some("")
    ensures afterFailure == None && afterSelect == Some("")
  {
    var v := new VideoGenerator();
    onMount := v.picker;
    v.KeyChecked(true);
    afterCheck := v.picker;
    v.SetPrompt("a fox in the snow");
    v.Generate();
    var thrown := KeyNotFound + ".";
    assert OccursAt(thrown, KeyNotFound, 0);
    v.GenerationEnded(Failed(Some(thrown)));
    afterFailure := v.picker;
    v.SelectKey(true);
    afterSelect := v.picker;
  }
}
