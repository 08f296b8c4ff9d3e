/** The snippet page: it fetches one snippet, renders its body line by line with
    line numbers through the highlighting library, and copies the raw body to the
    clipboard with a "copied" acknowledgement that reverts after two seconds.
    The library is an oracle: a detector guessing the language of a whole text,
    and a highlighter turning one line and a language into markup. */
module ViewCode {
  import opened Wrappers
  import opened Text
  import opened Seqs
  import opened Api

  /** `hljs.highlightAuto(text).language`: a guess, possibly none. */
  type Detector = string -> Option<string>

  /** `hljs.highlight(line, {language}).value`. */
  type Highlighter = (string, string) -> string

  const Plaintext := "plaintext"

  /** `result.language || "plaintext"`: a missing or empty guess falls back. */
  function ShownLanguage(detected: Option<string>): (lang: string)
    ensures lang != ""
    ensures detected.Some? && detected.value != "" ==> lang == detected.value
    ensures detected.None? || detected.value == "" ==> lang == Plaintext
  {
    if detected.Some? && detected.value != "" then detected.value else Plaintext
  }

  /** One rendered line: its number and its highlighted content. */
  datatype LineRecord = LineRecord(number: nat, content: string)

  datatype Rendering = Rendering(language: string, lines: seq<LineRecord>)

  /** Highlights each line with the one language, numbering from `first`. */
  function RenderLines(lines: seq<string>, language: string, highlight: Highlighter, first: nat): (r: seq<LineRecord>)
    ensures |r| == |lines|
    ensures forall i :: 0 <= i < |lines| ==> r[i] == LineRecord(first + i, highlight(lines[i], language))
  {
    if |lines| == 0 then []
    else [LineRecord(first, highlight(lines[0], language))]
         + RenderLines(lines[1..], language, highlight, first + 1)
  }

  /** The render effect: detect once on the whole body, split on "\n", and
      highlight every line with the detected language, numbering from 1. */
  function Render(body: string, detect: Detector, highlight: Highlighter): Rendering {
    var language := ShownLanguage(detect(body));
    Rendering(language, RenderLines(Split(body, '\n'), language, highlight, 1))
  }

  /** One line as the markup template writes it. */
  function LineHtml(r: LineRecord): string {
    "<div class=\"code-line\"><span class=\"line-number\">" + NatToString(r.number)
    + "</span><span class=\"line-content\">" + r.content + "</span></div>"
  }

  /** `.join("")` of the per-line markup. */
  function Html(lines: seq<LineRecord>): string {
    if |lines| == 0 then "" else LineHtml(lines[0]) + Html(lines[1..])
  }

  /** There is one record per "\n"-separated line, empty and trailing lines
      included; line `i` carries the number `i + 1` and the highlighting of the
      `i`-th raw line with the single detected language; and the raw lines
      joined with "\n" are the body again. */
  lemma RenderSpec(body: string, detect: Detector, highlight: Highlighter)
    ensures var r := Render(body, detect, highlight);
            var raw := Split(body, '\n');
            r.language == ShownLanguage(detect(body))
            && |r.lines| == CountChar(body, '\n') + 1
            && |raw| == |r.lines| && Join(raw, '\n') == body
            && forall i :: 0 <= i < |r.lines| ==>
                 r.lines[i].number == i + 1 && r.lines[i].content == highlight(raw[i], r.language)
  {
    SplitSpec(body, '\n');
  }

  /** The markup is the per-line markup in line order, with nothing between. */
  lemma {:induction false} HtmlAppend(a: seq<LineRecord>, b: seq<LineRecord>)
    ensures Html(a + b) == Html(a) + Html(b)
  {
    if |a| == 0 {
      assert a + b == b;
    } else {
      assert (a + b)[1..] == a[1..] + b;
      HtmlAppend(a[1..], b);
    }
  }

  /** The number in a line's markup reads back as the line's number. */
  lemma LineNumberReadsBack(r: LineRecord)
    ensures var n := NatToString(r.number);
            LineHtml(r) == "<div class=\"code-line\"><span class=\"line-number\">" + n
                           + "</span><span class=\"line-content\">" + r.content + "</span></div>"
            && ParseNat(n) == r.number
  {
    ParseNatToString(r.number);
  }

  /** "a\n\nb" renders as three lines, the middle one empty. */
  lemma ThreeLines(detect: Detector, highlight: Highlighter)
    ensures var r := Render("a\n\nb", detect, highlight);
            |r.lines| == 3 && r.lines[1] == LineRecord(2, highlight("", r.language))
  {
    var parts := ["a", "", "b"];
    assert Join(parts, '\n') == "a\n\nb";
    JoinSplit(parts, '\n');
  }

  // ---------------------------------------------------------------------------
  // The page's state

  const CopyRevertMs := 2000
  const Copied := "Code copied to clipboard!"
  const CopyFailed := "Failed to copy code."
  const CategoriesRoute := "/categories/"

  /** The timers still pending at time `t`. */
  function Later(t: nat): nat -> bool {
    u => u > t
  }

  /** Timers due within two seconds of `n` that are still pending at a later
      time `t` are due within two seconds of `t`. */
  lemma TimersBounded(ts: seq<nat>, n: nat, t: nat)
    requires n <= t
    requires forall u :: u in ts ==> u <= n + CopyRevertMs
    ensures forall u :: u in Filter(ts, Later(t)) ==> t < u <= t + CopyRevertMs
  {
    forall u | u in Filter(ts, Later(t)) ensures t < u <= t + CopyRevertMs {
      assert u in ts;
    }
  }

  /** If none of the timers has come due, one is still pending. */
  lemma TimersKept(ts: seq<nat>, t: nat)
    requires ts != [] && forall u :: u in ts ==> u > t
    ensures Filter(ts, Later(t)) != []
  {
    assert ts[0] in ts;
    assert Later(t)(ts[0]);
    assert ts[0] in Filter(ts, Later(t));
  }

  /** What the clock moving from `n` to `t` does to copy timers that were set
      to fire within two seconds of `n`: those left fire within two seconds of
      `t`, a flag that stays set still has one left, and two seconds after `n`
      the flag has been cleared. */
  lemma TimersAfter(ts: seq<nat>, n: nat, t: nat, copied: bool)
    requires n <= t
    requires forall u :: u in ts ==> n < u <= n + CopyRevertMs
    requires copied ==> ts != []
    ensures forall u :: u in Filter(ts, Later(t)) ==> t < u <= t + CopyRevertMs
    ensures copied && (forall u :: u in ts ==> u > t) ==> Filter(ts, Later(t)) != []
    ensures t >= n + CopyRevertMs ==> !(copied && forall u :: u in ts ==> u > t)
  {
    TimersBounded(ts, n, t);
    if copied && forall u :: u in ts ==> u > t {
      TimersKept(ts, t);
    }
    if copied && t >= n + CopyRevertMs {
      assert ts[0] in ts;
    }
  }

  class ViewCodePage {
    const id: string
    const detect: Detector
    const highlight: Highlighter
    /** The fetched snippet; none until the fetch succeeds. */
    var code: Option<Code>
    var loading: bool
    var copied: bool
    var detectedLanguage: string
    /** What the render effect wrote into the code element. */
    var innerHtml: string
    var clipboard: string
    /** Milliseconds since the page mounted. */
    var now: nat
    /** When each timer that resets `copied` fires; a new copy does not cancel
        the timers of earlier ones. */
    var revertAt: seq<nat>
    var requests: seq<Request>
    var toasts: seq<Toast>
    var navigations: seq<string>

    /** Every reset timer fires within two seconds, and while `copied` holds
        one of them is still pending. */
    ghost predicate Valid()
      reads this
    {
      (forall u :: u in revertAt ==> now < u <= now + CopyRevertMs)
      && (copied ==> revertAt != [])
    }

    /** Mounting: the fetch of `/code/{id}` is sent and the page is loading. */
    constructor (id: string, detect: Detector, highlight: Highlighter)
      ensures Valid()
      ensures this.id == id && this.detect == detect && this.highlight == highlight
      ensures code == None && loading && !copied && detectedLanguage == "" && innerHtml == ""
      ensures clipboard == "" && now == 0 && revertAt == []
      ensures requests == [Get("/code/" + id)] && toasts == [] && navigations == []
    {
      this.id, this.detect, this.highlight := id, detect, highlight;
      code, loading, copied, detectedLanguage, innerHtml := None, true, false, "", "";
      clipboard, now, revertAt := "", 0, [];
      requests, toasts, navigations := [Get("/code/" + id)], [], [];
    }

    /** The render effect, run when the snippet changes: nothing for an empty
        body, otherwise the detected language and the line markup. */
    method RenderEffect()
      requires code.Some?
      modifies this`detectedLanguage, this`innerHtml
      ensures code.value.code != "" ==>
                var r := Render(code.value.code, detect, highlight);
                detectedLanguage == r.language && innerHtml == Html(r.lines)
      ensures code.value.code == "" ==>
                detectedLanguage == old(detectedLanguage) && innerHtml == old(innerHtml)
    {
      if code.value.code != "" {
        var r := Render(code.value.code, detect, highlight);
        detectedLanguage := r.language;
        innerHtml := Html(r.lines);
      }
    }

    /** The fetch settles. A snippet is stored and rendered; a failure raises the
        toast for its kind and navigates to the category list. Loading ends
        either way. */
    method FetchSettled(outcome: Outcome<Code>)
      requires Valid()
      modifies this
      ensures Valid()
      ensures !loading
      ensures outcome.Ok? ==>
                code == Some(outcome.data) && toasts == old(toasts) && navigations == old(navigations)
      ensures outcome.Ok? && outcome.data.code != "" ==>
                var r := Render(outcome.data.code, detect, highlight);
                detectedLanguage == r.language && innerHtml == Html(r.lines)
      ensures (outcome.Ok? && outcome.data.code == "") || outcome.Err? ==>
                detectedLanguage == old(detectedLanguage) && innerHtml == old(innerHtml)
      ensures outcome.Err? ==>
                code == old(code)
                && toasts == old(toasts) + [ErrorToast(FetchErrorMessage(CodeWording, outcome.failure))]
                && navigations == old(navigations) + [CategoriesRoute]
      ensures copied == old(copied) && clipboard == old(clipboard) && now == old(now)
      ensures revertAt == old(revertAt) && requests == old(requests)
    {
      match outcome {
        case Ok(c) =>
          code := Some(c);
          RenderEffect();
        case Err(f) =>
          toasts := toasts + [ErrorToast(FetchErrorMessage(CodeWording, f))];
          navigations := navigations + [CategoriesRoute];
      }
      loading := false;
    }

    /** The copy button, once the snippet is shown. The raw body, not the
        markup, goes to the clipboard; only a successful write sets `copied`
        and schedules its reset two seconds later. */
    method HandleCopy(writeOk: bool)
      requires Valid()
      requires code.Some?
      modifies this
      ensures Valid()
      ensures writeOk ==>
                clipboard == old(code).value.code && copied
                && revertAt == old(revertAt) + [now + CopyRevertMs]
                && toasts == old(toasts) + [SuccessToast(Copied)]
      ensures !writeOk ==>
                clipboard == old(clipboard) && copied == old(copied) && revertAt == old(revertAt)
                && toasts == old(toasts) + [ErrorToast(CopyFailed)]
      ensures code == old(code) && loading == old(loading) && detectedLanguage == old(detectedLanguage)
      ensures innerHtml == old(innerHtml) && now == old(now)
      ensures requests == old(requests) && navigations == old(navigations)
    {
      if writeOk {
        clipboard := code.value.code;
        copied := true;
        toasts := toasts + [SuccessToast(Copied)];
        revertAt := revertAt + [now + CopyRevertMs];
      } else {
        toasts := toasts + [ErrorToast(CopyFailed)];
      }
    }

    /** Time passes; every reset timer that has come due fires. */
    method Tick(dt: nat)
      requires Valid()
      modifies this
      ensures Valid()
      ensures now == old(now) + dt
      ensures revertAt == Filter<nat>(old(revertAt), Later(now))
      ensures copied == (old(copied) && forall u :: u in old(revertAt) ==> u > now)
      ensures dt >= CopyRevertMs ==> !copied
      ensures code == old(code) && loading == old(loading) && detectedLanguage == old(detectedLanguage)
      ensures innerHtml == old(innerHtml) && clipboard == old(clipboard)
      ensures requests == old(requests) && toasts == old(toasts) && navigations == old(navigations)
    {
      var t, ts := now + dt, revertAt;
      TimersAfter(ts, now, t, copied);
      copied := copied && forall u :: u in ts ==> u > t;
      now := t;
      revertAt := Filter<nat>(ts, Later(t));
    }
  }

  /** Copying at 0 ms and again at 1500 ms: the first copy's timer still
      clears the flag at 2000 ms, half a second after the second copy. */
  method CopyTwiceScenario(detect: Detector, highlight: Highlighter) returns (at1999: bool, at2000: bool)
    ensures at1999 && !at2000
  {
    var page := new ViewCodePage("42", detect, highlight);
    page.FetchSettled(Ok(Code("42", "t", "x", "c")));
    page.HandleCopy(true);
    page.Tick(1500);
    page.HandleCopy(true);
    page.Tick(499);
    at1999 := page.copied;
    page.Tick(1);
    at2000 := page.copied;
  }
}
