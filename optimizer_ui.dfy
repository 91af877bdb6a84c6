/**
 * The per-textarea state of the content script's prompt optimizer: the score
 * display, its colour, the textarea's border and shadow, the Optimize button and
 * the last analysis result, with the rules that change them. The page elements
 * are reduced to the fields those rules read and write.
 */
module OptimizerUI {
  import opened Wrappers
  import opened JsText

  const Green: string := "#4CAF50"
  const Amber: string := "#FFC107"
  const Red: string := "#F44336"
  /** The colour shown while a request is pending or a new analysis is asked for. */
  const Orange: string := "#FF9800"

  const EmptyText: string := "Empty"
  const EvaluatingText: string := "Evaluating..."
  const OptimizedText: string := "Optimized!"
  const AnalyzeAgainText: string := "Please analyze again"

  /** The three score bands the display is coloured by. */
  datatype Band = Poor | Fair | Good

  /** The band of a score: good from 80, fair from 60, poor below. */
  function Classify(score: int): (b: Band)
    ensures b == Good <==> score >= 80
    ensures b == Fair <==> 60 <= score < 80
    ensures b == Poor <==> score < 60
  {
    if score >= 80 then Good else if score >= 60 then Fair else Poor
  }

  function Rank(b: Band): nat
  {
    match b
    case Poor => 0
    case Fair => 1
    case Good => 2
  }

  function BandColor(b: Band): (c: string)
    ensures c in {Green, Amber, Red}
  {
    match b
    case Good => Green
    case Fair => Amber
    case Poor => Red
  }

  /** The colour of a score, exactly one of the three band colours. */
  function ScoreColor(score: int): (c: string)
    ensures c == Green <==> score >= 80
    ensures c == Amber <==> 60 <= score < 80
    ensures c == Red <==> score < 60
  {
    BandColor(Classify(score))
  }

  /** A higher score never falls into a lower band. */
  lemma ClassifyMonotone(s1: int, s2: int)
    requires s1 <= s2
    ensures Rank(Classify(s1)) <= Rank(Classify(s2))
  {
  }

  /**
   * `response.accuracy || 0`: a missing accuracy scores zero. A present `0` is
   * falsy and also yields `0`, so on integers only a missing value is replaced.
   */
  function Score(accuracy: Option<int>): (s: int)
    ensures accuracy.None? ==> s == 0
    ensures accuracy.Some? ==> s == accuracy.value
  {
    match accuracy
    case Some(a) => a
    case None => 0
  }

  /** The score display's text, `${score}%`. */
  function ScoreText(score: int): (t: string)
    ensures |t| >= 2 && t[|t| - 1] == '%'
    ensures t[..|t| - 1] == IntToDecimal(score)
  {
    IntToDecimal(score) + "%"
  }

  /** The displayed percentage determines the score. */
  lemma ScoreTextInjective(a: int, b: int)
    requires ScoreText(a) == ScoreText(b)
    ensures a == b
  {
    var ta, tb := IntToDecimal(a), IntToDecimal(b);
    assert ta == ScoreText(a)[..|ScoreText(a)| - 1];
    assert tb == ScoreText(b)[..|ScoreText(b)| - 1];
    IntToDecimalInjective(a, b);
  }

  /** The analysis kept after a reply: the reply's fields and the exact trimmed text analysed. */
  datatype Analysis = Analysis(accuracy: Option<int>, reword: Option<string>, originalPrompt: string)

  /** What the analysis request's callback receives. */
  datatype Reply =
    | Failed(message: string)
    | Answered(accuracy: Option<int>, reword: Option<string>)

  /** `lastResult?.reword` is truthy: there is a non-empty rewording to apply. */
  predicate HasReword(last: Option<Analysis>)
    ensures HasReword(last) ==> last.Some? && last.value.reword.Some? && |last.value.reword.value| > 0
  {
    last.Some? && last.value.reword.Some? && last.value.reword.value != ""
  }

  /** One enhanced textarea together with its score display and Optimize button. */
  class TextareaUI {
    var value: string
    var lastResult: Option<Analysis>
    var display: string
    var color: string
    var border: string
    var boxShadow: string
    var buttonDisabled: bool

    /** The state right after the display and the disabled button are created. */
    constructor (initialValue: string)
      ensures value == initialValue && lastResult == None
      ensures display == "" && color == "" && border == "" && boxShadow == ""
      ensures buttonDisabled
    {
      value := initialValue;
      lastResult := None;
      display, color, border, boxShadow := "", "", "", "";
      buttonDisabled := true;
    }

    /**
     * The synchronous part of `evaluate`: an empty prompt shows "Empty" and sends
     * nothing; otherwise the display shows the pending state and the trimmed prompt
     * is returned as the request to send. Either way the button is disabled.
     */
    method Evaluate() returns (request: Option<string>)
      modifies this
      ensures request == if Trim(old(value)) == "" then None else Some(Trim(old(value)))
      ensures buttonDisabled
      ensures request.None? ==> display == EmptyText && color == old(color)
      ensures request.Some? ==> display == EvaluatingText && color == Orange
      ensures value == old(value) && lastResult == old(lastResult)
      ensures border == old(border) && boxShadow == old(boxShadow)
    {
      var prompt := Trim(value);
      if prompt == "" {
        display := EmptyText;
        buttonDisabled := true;
        return None;
      }
      display := EvaluatingText;
      color := Orange;
      buttonDisabled := true;
      request := Some(prompt);
    }

    /** `updateUI`: show the score as a percentage in its band colour and enable the button. */
    method UpdateUI(accuracy: Option<int>)
      modifies this
      ensures display == ScoreText(Score(accuracy))
      ensures color == ScoreColor(Score(accuracy))
      ensures border == "2px solid " + color && boxShadow == "0 0 5px " + color
      ensures !buttonDisabled
      ensures value == old(value) && lastResult == old(lastResult)
    {
      var score := Score(accuracy);
      var c := ScoreColor(score);
      display := ScoreText(score);
      color := c;
      buttonDisabled := false;
      border := "2px solid " + c;
      boxShadow := "0 0 5px " + c;
    }

    /**
     * The request's callback for the trimmed `prompt` it was sent for: a failure
     * throws out of the callback and changes nothing; an answer is kept together
     * with `prompt` and shown.
     */
    method OnAnalysisReply(prompt: string, reply: Reply)
      modifies this
      ensures reply.Failed? ==>
                value == old(value) && lastResult == old(lastResult) && display == old(display)
                && color == old(color) && border == old(border) && boxShadow == old(boxShadow)
                && buttonDisabled == old(buttonDisabled)
      ensures reply.Answered? ==>
                lastResult == Some(Analysis(reply.accuracy, reply.reword, prompt))
                && display == ScoreText(Score(reply.accuracy))
                && color == ScoreColor(Score(reply.accuracy))
                && border == "2px solid " + color && boxShadow == "0 0 5px " + color
                && !buttonDisabled && value == old(value)
    {
      match reply
      case Failed(_) =>
      case Answered(accuracy, reword) =>
        lastResult := Some(Analysis(accuracy, reword, prompt));
        UpdateUI(accuracy);
    }

    /**
     * The Optimize button's click handler. Without a rewording nothing happens. If
     * the trimmed text is still the text that was analysed, the rewording replaces
     * it; otherwise the text stays and the user is asked to analyse again.
     */
    method OnOptimizeClick()
      modifies this
      ensures lastResult == old(lastResult) && buttonDisabled == old(buttonDisabled)
      ensures border == old(border) && boxShadow == old(boxShadow)
      ensures !HasReword(old(lastResult)) ==> value == old(value) && display == old(display) && color == old(color)
      ensures HasReword(old(lastResult)) && Trim(old(value)) == old(lastResult).value.originalPrompt ==>
                value == old(lastResult).value.reword.value && display == OptimizedText && color == old(color)
      ensures HasReword(old(lastResult)) && Trim(old(value)) != old(lastResult).value.originalPrompt ==>
                value == old(value) && display == AnalyzeAgainText && color == Orange
    {
      if !HasReword(lastResult) {
        return;
      }
      var currentText := Trim(value);
      var isUnchanged := currentText == lastResult.value.originalPrompt;
      if isUnchanged {
        value := lastResult.value.reword.value;
        display := OptimizedText;
      } else {
        display := AnalyzeAgainText;
        color := Orange;
      }
    }

    /** `resetUI`: back to "Empty" with no colour, border or shadow and the button disabled. */
    method ResetUI()
      modifies this
      ensures display == EmptyText && color == "" && border == "" && boxShadow == ""
      ensures buttonDisabled
      ensures value == old(value) && lastResult == old(lastResult)
    {
      display := EmptyText;
      color := "";
      border := "";
      boxShadow := "";
      buttonDisabled := true;
    }
  }

  /** A textarea's identity, standing for the element object itself. */
  type TextareaId = nat

  /** The page-wide record of which textareas already carry the optimizer. */
  class Page {
    var enhanced: set<TextareaId>

    constructor ()
      ensures enhanced == {}
    {
      enhanced := {};
    }

    /**
     * `enhanceTextarea`: a textarea already enhanced is left alone; a new one is
     * recorded, given its display and button, and evaluated once with its current
     * `text`, yielding the request that evaluation sends, if any.
     */
    method Enhance(id: TextareaId, text: string) returns (ui: TextareaUI?, request: Option<string>)
      modifies this
      ensures enhanced == old(enhanced) + {id}
      ensures id in old(enhanced) ==> ui == null && request == None
      ensures id !in old(enhanced) ==>
                ui != null && fresh(ui)
                && ui.value == text && ui.lastResult == None && ui.buttonDisabled
                && ui.border == "" && ui.boxShadow == ""
                && request == (if Trim(text) == "" then None else Some(Trim(text)))
                && (request.None? ==> ui.display == EmptyText && ui.color == "")
                && (request.Some? ==> ui.display == EvaluatingText && ui.color == Orange)
    {
      if id in enhanced {
        return null, None;
      }
      enhanced := enhanced + {id};
      ui := new TextareaUI(text);
      request := ui.Evaluate();
    }
  }

  /**
   * The analyse-then-optimize cycle on a fresh textarea holding `text`: the answer
   * for it carries `reword`; the user then changes the text to `edited` and clicks
   * Optimize. The rewording is applied exactly when `edited` trims to the text
   * that was analysed; otherwise `edited` stays and a new analysis is asked for.
   */
  method AnalyseEditOptimize(text: string, accuracy: Option<int>, reword: string, edited: string)
    returns (finalValue: string, finalDisplay: string)
    requires Trim(text) != "" && reword != ""
    ensures Trim(edited) == Trim(text) ==> finalValue == reword && finalDisplay == OptimizedText
    ensures Trim(edited) != Trim(text) ==> finalValue == edited && finalDisplay == AnalyzeAgainText
  {
    var ui := new TextareaUI(text);
    var request := ui.Evaluate();
    ui.OnAnalysisReply(request.value, Answered(accuracy, Some(reword)));
    ui.value := edited;
    ui.OnOptimizeClick();
    finalValue, finalDisplay := ui.value, ui.display;
  }
}
