/**
 * The intro's boot-log typer: it types `lines` one character at a time, pauses
 * between lines, and reports completion once. Each `Tick` is the firing of the
 * one timer the component has pending; delays are not modelled.
 */
module BootTyper {
  import opened Text

  class BootTyper {
    const lines: seq<string>
    /** Delay per character; zero means reduced motion: finish at once. */
    const charMs: nat
    var lineIdx: nat
    var charIdx: nat
    /** Whether `onDone` has been called. */
    var done: bool

    ghost predicate Valid()
      reads this
    {
      && (lines == [] ==> lineIdx == 0 && charIdx == 0)
      && (lines != [] ==> lineIdx < |lines| && charIdx <= |lines[lineIdx]|)
      && (done && charMs != 0 ==> Finished())
    }

    /** `lines[lineIdx] ?? ""`. */
    function Current(): string
      reads this
    {
      if lineIdx < |lines| then lines[lineIdx] else ""
    }

    /** The last line (if any) is fully typed. */
    ghost predicate Finished()
      reads this
    {
      (lines == [] || lineIdx == |lines| - 1) && charIdx == |Current()|
    }

    constructor (lines: seq<string>, charMs: nat)
      ensures Valid()
      ensures this.lines == lines && this.charMs == charMs
      ensures lineIdx == 0 && charIdx == 0 && !done
    {
      this.lines := lines;
      this.charMs := charMs;
      lineIdx, charIdx, done := 0, 0, false;
    }

    /** What remains before completion: characters left, line breaks left, and the final report. */
    ghost function Remaining(): nat
      reads this
      requires Valid()
    {
      if done then 0
      else if lines == [] then 1
      else TotalLength(lines[lineIdx..]) - charIdx + (|lines| - 1 - lineIdx) + 1
    }

    /**
     * One timer firing: type the next character, else start the next line,
     * else report completion; with no per-character delay, report at once.
     * After completion nothing is pending; before it, every firing brings
     * completion strictly closer.
     */
    method Tick()
      requires Valid()
      modifies this
      ensures Valid()
      ensures old(done) ==> unchanged(this)
      ensures !old(done) && charMs == 0 ==> done && lineIdx == old(lineIdx) && charIdx == old(charIdx)
      ensures !old(done) && charMs != 0 && old(charIdx) < old(|Current()|) ==>
                !done && lineIdx == old(lineIdx) && charIdx == old(charIdx) + 1
      ensures !old(done) && charMs != 0 && old(charIdx) >= old(|Current()|) && old(lineIdx) + 1 < |lines| ==>
                !done && lineIdx == old(lineIdx) + 1 && charIdx == 0
      ensures !old(done) && charMs != 0 && old(charIdx) >= old(|Current()|) && old(lineIdx) + 1 >= |lines| ==>
                done && lineIdx == old(lineIdx) && charIdx == old(charIdx)
      ensures done && !old(done) ==> charMs == 0 || (Finished() && lineIdx == old(lineIdx) && charIdx == old(charIdx))
      ensures !old(done) ==> Remaining() < old(Remaining())
    {
      if done {
        return;
      }
      if lines != [] {
        TotalLengthFrom(lines, lineIdx);
      }
      if charMs == 0 {
        done := true;
        return;
      }
      var current := if lineIdx < |lines| then lines[lineIdx] else "";
      if charIdx < |current| {
        charIdx := charIdx + 1;
      } else if lineIdx < |lines| - 1 {
        lineIdx := lineIdx + 1;
        charIdx := 0;
      } else {
        done := true;
      }
    }
  }
}
