/**
 * The Editor wrapper as state: the editing session reduced to its text and its
 * annotations, the font size of the resolved configuration, and the scheduler
 * that sends the text to the Python checker after edits and applies its replies.
 * All callbacks run to completion on one thread, so each event is one method.
 */
module EditorModel {
  import opened Wrappers
  import opened EditorConfig
  import opened Annotations

  class Editor {
    /** The resolved configuration (`editorState`). */
    var state: EditorState
    /** The session's current text. */
    var text: string
    /** The session's annotations. */
    var annotations: seq<Annotation>
    /** The Python checker is installed: Python mode in a page that offers workers. */
    const checking: bool
    /** `pythonCodeCheckWorkerBusy`: a text has been posted and no reply has come since. */
    var busy: bool
    /** `parserTimeout` holds a timer that has not fired yet. */
    var timerArmed: bool
    /** The error string of the last reply that was applied. */
    var lastErrors: string
    /** Every text posted to the checker, in order. */
    var posted: seq<string>
    /** How many of the posted texts the checker has answered (it answers in order). */
    var answered: nat

    ghost predicate Valid()
      reads this
    {
      answered <= |posted| &&
      (!checking ==> !busy && !timerArmed && posted == [])
    }

    /** Texts posted and not yet answered. */
    function InFlight(): nat
      reads this
      requires Valid()
    {
      |posted| - answered
    }

    /** The busy flag tells the truth: one check is in flight when busy and none otherwise. */
    ghost predicate SingleFlight()
      reads this
    {
      Valid() && InFlight() == if busy then 1 else 0
    }

    /**
     * Resolves the configuration, loads its code into the session and, when the
     * resolved mode is Python and the page offers workers, installs the checker
     * and schedules its first check.
     */
    constructor (config: PartialState, workerAvailable: bool)
      ensures Valid() && SingleFlight()
      ensures state == Resolve(config) && text == state.code && annotations == []
      ensures checking == (state.mode == Python && workerAvailable)
      ensures timerArmed == checking && !busy && lastErrors == ""
      ensures posted == [] && answered == 0
    {
      state := Resolve(config);
      text := Resolve(config).code;
      annotations := [];
      checking := Resolve(config).mode == Python && workerAvailable;
      busy := false;
      timerArmed := false;
      lastErrors := "";
      posted := [];
      answered := 0;
      new;
      if checking {
        ScheduleCheck();
      }
    }

    /** `scheduleWorker`: cancel the pending timer, if any, and arm a new one. */
    method ScheduleCheck()
      requires Valid() && checking
      modifies this`timerArmed
      ensures Valid() && timerArmed
      ensures old(SingleFlight()) ==> SingleFlight()
    {
      // clearTimeout drops the pending timer, if any; setTimeout arms a fresh one
      timerArmed := true;
    }

    /**
     * The session's text changes, by typing or by `setValue`. With the checker
     * installed, the change reschedules the check, so exactly one is pending.
     */
    method Edit(newText: string)
      requires Valid()
      modifies this
      ensures Valid() && text == newText && timerArmed == checking
      ensures old(SingleFlight()) ==> SingleFlight()
      ensures state == old(state) && annotations == old(annotations) && busy == old(busy)
      ensures lastErrors == old(lastErrors) && posted == old(posted) && answered == old(answered)
    {
      text := newText;
      if checking {
        ScheduleCheck();
      }
    }

    /**
     * `checkPython`, as written: when busy it re-arms the timer, and then, without
     * returning, posts the current text and marks the checker busy.
     */
    method FireTimer()
      requires Valid() && timerArmed
      modifies this
      ensures Valid() && busy && timerArmed == old(busy)
      ensures posted == old(posted) + [old(text)] && answered == old(answered)
      ensures InFlight() == old(InFlight()) + 1
      ensures state == old(state) && text == old(text) && annotations == old(annotations)
      ensures lastErrors == old(lastErrors)
    {
      timerArmed := false;
      if busy {
        ScheduleCheck();
      }
      posted := posted + [text];
      busy := true;
    }

    /**
     * `checkPython` with the return its busy check evidently intends: when busy it
     * only re-arms the timer; otherwise it posts the current text.
     */
    method FireTimerIntended()
      requires Valid() && timerArmed
      modifies this
      ensures Valid() && busy
      ensures old(busy) ==> timerArmed && posted == old(posted)
      ensures !old(busy) ==> !timerArmed && posted == old(posted) + [old(text)]
      ensures answered == old(answered)
      ensures old(SingleFlight()) ==> SingleFlight()
      ensures state == old(state) && text == old(text) && annotations == old(annotations)
      ensures lastErrors == old(lastErrors)
    {
      timerArmed := false;
      if busy {
        ScheduleCheck();
        return;
      }
      posted := posted + [text];
      busy := true;
    }

    /**
     * The session's `changeAnnotation` handler: filter the current annotations and
     * write them back only if the filter removed something.
     */
    method OnChangeAnnotation() returns (wrote: bool)
      modifies this`annotations
      ensures wrote == HasNoise(old(annotations))
      ensures annotations == if wrote then FilterNoise(old(annotations)) else old(annotations)
    {
      var raw := annotations;
      var filtered := FilterNoise(raw);
      ShorterIffNoise(raw);
      wrote := |raw| > |filtered|;
      if wrote {
        annotations := filtered;
      }
    }

    /**
     * The session's `setAnnotations`. Every write signals `changeAnnotation`, so the
     * handler runs again on what it wrote back; it runs twice when the list held
     * noise and once otherwise, and leaves the filtered list.
     */
    method SetAnnotations(anns: seq<Annotation>) returns (rounds: nat)
      requires Valid()
      modifies this`annotations
      ensures Valid() && annotations == FilterNoise(anns)
      ensures rounds == if HasNoise(anns) then 2 else 1
    {
      annotations := anns;
      rounds := 0;
      var again := true;
      while again
        invariant Valid()
        invariant rounds <= 2
        invariant rounds == 0 ==> again && annotations == anns
        invariant rounds > 0 ==> annotations == FilterNoise(anns)
        invariant again && rounds > 0 ==> rounds == 1 && HasNoise(anns)
        invariant !again ==> rounds == if HasNoise(anns) then 2 else 1
        decreases |annotations|, again
      {
        ShorterIffNoise(annotations);
        FilterIsClean(anns);
        again := OnChangeAnnotation();
        rounds := rounds + 1;
      }
    }

    /**
     * The checker's reply: the checker is no longer busy, and the reply replaces the
     * annotations only if its error string differs from the last one applied.
     */
    method Reply(errs: seq<Annotation>) returns (updated: bool)
      requires Valid() && answered < |posted|
      modifies this
      ensures Valid() && !busy && answered == old(answered) + 1 && posted == old(posted)
      ensures updated == (ErrorString(errs) != old(lastErrors))
      ensures lastErrors == ErrorString(errs)
      ensures annotations == if updated then FilterNoise(errs) else old(annotations)
      ensures old(SingleFlight()) ==> SingleFlight()
      ensures state == old(state) && text == old(text) && timerArmed == old(timerArmed)
    {
      busy := false;
      answered := answered + 1;
      var errorString := ErrorString(errs);
      updated := errorString != lastErrors;
      if updated {
        lastErrors := errorString;
        var _ := SetAnnotations(errs);
      }
    }

    /** `setFontSize`: the font size becomes `size` and nothing else changes. */
    method SetFontSize(size: int)
      requires Valid()
      modifies this`state
      ensures Valid()
      ensures state == old(state).(fontSize := size)
    {
      state := state.(fontSize := size);
    }

    /** `sizeup`: one unit larger. */
    method SizeUp()
      requires Valid()
      modifies this`state
      ensures Valid()
      ensures state == old(state).(fontSize := old(state).fontSize + 1)
    {
      SetFontSize(state.fontSize + 1);
    }

    /** `sizedown`: one unit smaller. */
    method SizeDown()
      requires Valid()
      modifies this`state
      ensures Valid()
      ensures state == old(state).(fontSize := old(state).fontSize - 1)
    {
      SetFontSize(state.fontSize - 1);
    }
  }

  /**
   * With the code as written, a timer that fires while a check runs starts a
   * second one: an edit during the first check leaves two texts in flight.
   */
  method OverlappingChecks() returns (inFlight: nat)
    ensures inFlight == 2
  {
    var e := new Editor(NothingSupplied, true);
    e.FireTimer();
    e.Edit("print(1)");
    e.FireTimer();
    inFlight := e.InFlight();
  }

  /** With the intended return, the same events leave one text in flight. */
  method NoOverlapIntended() returns (inFlight: nat, pending: bool)
    ensures inFlight == 1 && pending
  {
    var e := new Editor(NothingSupplied, true);
    e.FireTimerIntended();
    e.Edit("print(1)");
    e.FireTimerIntended();
    inFlight, pending := e.InFlight(), e.timerArmed;
  }

  /**
   * A burst of edits after the editor opens collapses into one check, which posts
   * the text as of the last edit.
   */
  method EditBurst(edits: seq<string>) returns (sent: seq<string>)
    ensures sent == [if |edits| == 0 then "" else edits[|edits| - 1]]
  {
    var e := new Editor(NothingSupplied, true);
    for i := 0 to |edits|
      invariant e.Valid() && e.checking && e.timerArmed && !e.busy && e.posted == []
      invariant e.text == if i == 0 then "" else edits[i - 1]
    {
      e.Edit(edits[i]);
    }
    e.FireTimer();
    sent := e.posted;
  }

  /**
   * Two identical replies: the second is suppressed, and the first is applied only
   * if its error string is not empty, since the last one starts out empty.
   */
  method RepeatedReply(errs: seq<Annotation>) returns (first: bool, second: bool)
    ensures first == (ErrorString(errs) != "")
    ensures !second
  {
    var e := new Editor(NothingSupplied, true);
    e.FireTimer();
    first := e.Reply(errs);
    e.Edit("x = 1");
    e.FireTimer();
    second := e.Reply(errs);
  }

  /** `sizeup` then `sizedown` gives back the configuration the editor had. */
  method SizeUpThenDown(config: PartialState) returns (before: EditorState, after: EditorState)
    ensures before == Resolve(config) && after == before
  {
    var e := new Editor(config, false);
    before := e.state;
    e.SizeUp();
    e.SizeDown();
    after := e.state;
  }
}
