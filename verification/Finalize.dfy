/** The last step of the pipeline: the silent render becomes the delivered file.

    The encoder and the frame counter are outside programs.  What they come to is a parameter:
    any outcome is possible. */
module Finalize {
  import opened Basics

  type Path = string

  /** A video file.  `counted` is what the frame counter makes of it, if it can read it at all. */
  datatype File = File(id: int, size: nat, counted: Option<nat>)

  /** What one run of the encoder comes to: its exit code, unless it was stopped for taking too long,
      and what it left under the temporary name, if it wrote at all. */
  datatype Encoding = Encoding(exit: Option<int>, wrote: Option<File>)

  datatype Audio = Wanted(has: Option<bool>) | Unwanted

  datatype Status =
    | Ok | NoAudio | Disabled | ProbeFailed
    | ToolMissing | TimedOut | EncoderFailed | VerifyFailed | FrameLoss(got: nat, expected: nat)

  /** The rendered video was used as it is. */
  predicate FellBack(s: Status) {
    s.ToolMissing? || s.TimedOut? || s.EncoderFailed? || s.VerifyFailed? || s.FrameLoss?
  }

  function AudioStatus(audio: Audio): Status {
    match audio
    case Unwanted => Disabled
    case Wanted(None) => ProbeFailed
    case Wanted(Some(has)) => if has then Ok else NoAudio
  }

  /** What is under the temporary name after the encoder ran. */
  function Left(stale: Option<File>, run: Encoding): Option<File> {
    if run.wrote.Some? then run.wrote else stale
  }

  class Folder {
    var files: map<Path, File>

    constructor (files: map<Path, File>)
      ensures this.files == files
    {
      this.files := files;
    }

    method Move(from: Path, to: Path)
      requires from in files && from != to
      modifies this
      ensures files == old(files)[to := old(files[from])] - {from}
    {
      files := files[to := files[from]] - {from};
    }

    method Unlink(path: Path)
      modifies this
      ensures files == old(files) - {path}
    {
      files := files - {path};
    }

    function Get(path: Path): Option<File>
      reads this
    {
      if path in files then Some(files[path]) else None
    }

    /** Runs the encoder; it writes under the temporary name, if at all. */
    method Encode(tmp: Path, run: Encoding)
      modifies this
      ensures files - {tmp} == old(files) - {tmp} && Get(tmp) == Left(old(Get(tmp)), run)
      ensures files == if run.wrote.Some? then old(files)[tmp := run.wrote.value] else old(files)
    {
      if run.wrote.Some? {
        files := files[tmp := run.wrote.value];
      }
    }

    /** The render itself is delivered, and what the encoder left is removed. */
    method Discard(silent: Path, tmp: Path, output: Path)
      requires silent in files && silent != tmp && silent != output && tmp != output
      modifies this
      ensures files == (old(files) - {tmp} - {silent})[output := old(files[silent])]
    {
      Unlink(tmp);
      Move(silent, output);
    }

    /** What the encoder left is delivered, and the render is removed. */
    method Accept(silent: Path, tmp: Path, output: Path)
      requires tmp in files && silent != tmp && silent != output && tmp != output
      modifies this
      ensures files == (old(files) - {tmp} - {silent})[output := old(files[tmp])]
    {
      Move(tmp, output);
      Unlink(silent);
    }

    /** Adds the sound to a render that is already as it shall be delivered. */
    method MuxOnly(silent: Path, tmp: Path, output: Path, audio: Status, run: Encoding, expected: Option<nat>)
      returns (status: Status)
      requires silent in files && silent != tmp && silent != output && tmp != output
      modifies this
      ensures var d := Muxed(old(files[silent]), Left(old(Get(tmp)), run), audio, run.exit, expected);
              status == d.status && files == (old(files) - {tmp} - {silent})[output := d.file]
    {
      ghost var render := files[silent];
      Encode(tmp, run);
      assert silent in files - {tmp} && files[silent] == (files - {tmp})[silent] == render;
      if run.exit != Some(0) || tmp !in files {
        Discard(silent, tmp, output);
        return if run.exit.Some? then EncoderFailed else TimedOut;
      }
      if expected.Some? {
        var got := files[tmp].counted;
        if got.Some? && got != expected {
          Discard(silent, tmp, output);
          return FrameLoss(got.value, expected.value);
        }
      }
      Accept(silent, tmp, output);
      return audio;
    }

    /** Delivers the render: with the sound added when it is `ready`, otherwise encoded anew; or as it
        is when anything goes wrong. */
    method FinalizeOutput(silent: Path, tmp: Path, output: Path, tools: bool, audio: Audio, ready: bool,
                          encoder: bool, run: Encoding, expected: Option<nat>) returns (status: Status)
      requires silent in files && silent != tmp && silent != output && tmp != output
      modifies this
      ensures var d := Final(old(files[silent]), Left(old(Get(tmp)), run), tools, audio, ready, encoder, run.exit, expected);
              && status == d.status
              && files == if tools && (ready || encoder) then (old(files) - {tmp} - {silent})[output := d.file]
                          else old(files)[output := d.file] - {silent}
    {
      if !tools {
        Move(silent, output);
        return ToolMissing;
      }
      status := AudioStatus(audio);
      if ready {
        status := MuxOnly(silent, tmp, output, status, run, expected);
        return;
      }
      if !encoder {
        Move(silent, output);
        return ToolMissing;
      }
      ghost var render := files[silent];
      Encode(tmp, run);
      assert silent in files - {tmp} && files[silent] == (files - {tmp})[silent] == render;
      if run.exit == None {
        Discard(silent, tmp, output);
        return TimedOut;
      }
      if run.exit != Some(0) || tmp !in files || files[tmp].size == 0 {
        Discard(silent, tmp, output);
        return EncoderFailed;
      }
      if expected.Some? {
        var got := files[tmp].counted;
        if got == None {
          Discard(silent, tmp, output);
          return VerifyFailed;
        }
        if got != expected {
          Discard(silent, tmp, output);
          return FrameLoss(got.value, expected.value);
        }
      }
      Accept(silent, tmp, output);
    }
  }

  // ------------------------------------------------------------------ what is delivered

  datatype Delivery = Delivery(file: File, status: Status)

  /** What stands under the output name in the end, and why. */
  function Delivered(render: File, left: Option<File>, tools: bool, audio: Audio, encoder: bool,
                     exit: Option<int>, expected: Option<nat>): Delivery {
    if !tools || !encoder then Delivery(render, ToolMissing)
    else if exit == None then Delivery(render, TimedOut)
    else if exit != Some(0) || left == None || left.value.size == 0 then Delivery(render, EncoderFailed)
    else if expected.Some? && left.value.counted == None then Delivery(render, VerifyFailed)
    else if expected.Some? && left.value.counted != expected
    then Delivery(render, FrameLoss(left.value.counted.value, expected.value))
    else Delivery(left.value, AudioStatus(audio))
  }

  function Muxed(render: File, left: Option<File>, audio: Status, exit: Option<int>, expected: Option<nat>): Delivery {
    if exit == None then Delivery(render, TimedOut)
    else if exit != Some(0) || left == None then Delivery(render, EncoderFailed)
    else if expected.Some? && left.value.counted.Some? && left.value.counted != expected
    then Delivery(render, FrameLoss(left.value.counted.value, expected.value))
    else Delivery(left.value, audio)
  }

  function Final(render: File, left: Option<File>, tools: bool, audio: Audio, ready: bool, encoder: bool,
                 exit: Option<int>, expected: Option<nat>): Delivery {
    if tools && ready then Muxed(render, left, AudioStatus(audio), exit, expected)
    else Delivered(render, left, tools, audio, encoder, exit, expected)
  }

  /** Why the render is delivered as it is, each reason exactly when it applies; and otherwise the encoder's
      file is, with what became of the sound.  `ran` says that the encoder was started at all, `left` what it
      left. */
  lemma StatusTellsWhy(render: File, left: Option<File>, tools: bool, audio: Audio, ready: bool, encoder: bool,
                       exit: Option<int>, expected: Option<nat>)
    ensures var d := Final(render, left, tools, audio, ready, encoder, exit, expected);
            var ran := tools && (ready || encoder);
            var made := ran && exit == Some(0) && left.Some? && (ready || left.value.size > 0);
            && (d.status.ToolMissing? <==> !ran)
            && (d.status.TimedOut? <==> ran && exit == None)
            && (d.status.EncoderFailed? <==> ran && exit.Some? && !made)
            && (d.status.VerifyFailed? <==> made && !ready && expected.Some? && left.value.counted == None)
            && (d.status.FrameLoss? <==> made && expected.Some? && left.value.counted.Some? && left.value.counted != expected)
            && (d.status.FrameLoss? ==> left.value.counted == Some(d.status.got) && expected == Some(d.status.expected))
    ensures var d := Final(render, left, tools, audio, ready, encoder, exit, expected);
            if d.status.Ok? || d.status.NoAudio? || d.status.Disabled? || d.status.ProbeFailed?
            then
              && left == Some(d.file)
              && (d.status.Disabled? <==> audio.Unwanted?)
              && (d.status.ProbeFailed? <==> audio == Wanted(None))
              && (d.status.Ok? <==> audio == Wanted(Some(true)))
              && (d.status.NoAudio? <==> audio == Wanted(Some(false)))
            else d.file == render
  {
    match audio
    case Unwanted =>
    case Wanted(None) =>
    case Wanted(Some(has)) =>
  }

  /** The delivered file holds as many frames as the render: it is the render, or was counted. */
  ghost predicate NoFrameLost(d: Delivery, render: File, frames: nat) {
    d.file == render || d.file.counted == Some(frames)
  }

  /** Whatever the tools do, no frame is lost; the status tells which file it is. */
  lemma EncodingLosesNoFrame(render: File, left: Option<File>, tools: bool, audio: Audio, encoder: bool,
                             exit: Option<int>, frames: nat)
    ensures var d := Delivered(render, left, tools, audio, encoder, exit, Some(frames));
            && NoFrameLost(d, render, frames)
            && (FellBack(d.status) ==> d.file == render)
            && (!FellBack(d.status) ==> left == Some(d.file) && d.file.counted == Some(frames) && d.file.size > 0)
  {
  }

  /** When only the sound is added, a file nobody can count is delivered as well: frames may be lost
      exactly then, when it is not the render itself. */
  lemma MuxingLosesNoFrame(render: File, left: Option<File>, audio: Status, exit: Option<int>, frames: nat)
    requires !FellBack(audio)
    ensures var d := Muxed(render, left, audio, exit, Some(frames));
            && (FellBack(d.status) ==> d.file == render)
            && (NoFrameLost(d, render, frames)
                <==> !(exit == Some(0) && left.Some? && left.value.counted == None && left.value != render))
  {
  }

  /** Exactly when a finalisation loses no frame, over all outcomes of the tools. */
  lemma FinalLosesNoFrame(render: File, left: Option<File>, tools: bool, audio: Audio, ready: bool, encoder: bool,
                          exit: Option<int>, frames: nat)
    ensures NoFrameLost(Final(render, left, tools, audio, ready, encoder, exit, Some(frames)), render, frames)
            <==> !(tools && ready && exit == Some(0) && left.Some? && left.value.counted == None && left.value != render)
  {
  }

  /** An empty file is delivered, and the render is gone. */
  lemma EmptyFileIsDelivered(render: File)
    requires render.size > 0
    ensures var empty := File(render.id + 1, 0, None);
            Muxed(render, Some(empty), Ok, Some(0), render.counted) == Delivery(empty, Ok)
  {
  }
}
