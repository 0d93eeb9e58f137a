/**
 * Index population failures (IndexPopulationFailure): why building an index
 * failed, captured either from a throwable or from a description, and
 * surfaced either as text or as a population-failed kernel exception.
 */
module IndexPopulationFailures {
  import opened Wrappers
  import opened Exceptions
  import opened IndexEntryUpdates

  /** What a population-failed exception carries as its cause. */
  datatype FailureCause = CausedBy(throwable: Throwable?) | Described(description: Option<string>)

  /** IndexPopulationFailedKernelException(indexUserDescription, cause). */
  datatype IndexPopulationFailedKernelException =
    IndexPopulationFailedKernelException(indexUserDescription: string, cause: FailureCause)

  /** The two ways a failure is built: failure(Throwable) and failure(String). */
  datatype IndexPopulationFailure =
    | FromThrowable(throwable: Throwable?)
    | FromString(description: Option<string>)
  {
    /** asString(): the throwable's printed stack trace, or the description itself. */
    function AsString(printStackTrace: Throwable -> string): (r: Option<string>)
      ensures FromString? ==> r == description
      ensures FromThrowable? ==> r == Stringify(throwable, printStackTrace)
      ensures r.None? <==> (FromString? && description.None?) || (FromThrowable? && throwable == null)
    {
      match this
      case FromThrowable(t) => Stringify(t, printStackTrace)
      case FromString(s) => s
    }

    /**
     * asIndexPopulationFailure(descriptor, indexUserDescription): an exception
     * for the named index whose cause is the original throwable or description.
     * The descriptor is not used.
     */
    function AsIndexPopulationFailure(descriptor: SchemaDescriptor, indexUserDescription: string)
      : (e: IndexPopulationFailedKernelException)
      ensures e.indexUserDescription == indexUserDescription
      ensures FromThrowable? ==> e.cause == CausedBy(throwable)
      ensures FromString? ==> e.cause == Described(description)
    {
      match this
      case FromThrowable(t) => IndexPopulationFailedKernelException(indexUserDescription, CausedBy(t))
      case FromString(s) => IndexPopulationFailedKernelException(indexUserDescription, Described(s))
    }
  }

  /** The conversion gives the same exception whatever the schema descriptor. */
  lemma ConversionIgnoresDescriptor(failure: IndexPopulationFailure, d1: SchemaDescriptor, d2: SchemaDescriptor,
                                    indexUserDescription: string)
    ensures failure.AsIndexPopulationFailure(d1, indexUserDescription) ==
            failure.AsIndexPopulationFailure(d2, indexUserDescription)
  {
  }

  const CauseHeading := ": Cause of failure:"
  const Rule := "=================="

  /** The text between the message and the cause: the heading and the opening rule line. */
  function Opening(lineSeparator: string): string {
    CauseHeading + lineSeparator + Rule + lineSeparator
  }

  /** The text after the cause: the closing rule line. */
  function Closing(lineSeparator: string): string {
    lineSeparator + Rule
  }

  /**
   * appendCauseOfFailure(message, causeOfFailure): the message, the heading,
   * then the cause between two rule lines. `lineSeparator` is the platform's
   * line separator (%n).
   */
  function AppendCauseOfFailure(message: string, causeOfFailure: string, lineSeparator: string): (r: string)
    ensures message + CauseHeading + lineSeparator <= r
    ensures |r| >= |Rule| && r[|r| - |Rule|..] == Rule
  {
    message + CauseHeading + lineSeparator + Rule + lineSeparator + causeOfFailure + lineSeparator + Rule
  }

  /** The layout is the message, the opening, the cause and the closing, in that order. */
  lemma LayoutParts(message: string, causeOfFailure: string, lineSeparator: string)
    ensures AppendCauseOfFailure(message, causeOfFailure, lineSeparator)
            == message + Opening(lineSeparator) + causeOfFailure + Closing(lineSeparator)
  {
    Regroup(message, CauseHeading, lineSeparator, Rule, causeOfFailure);
  }

  /** Regrouping the eight pieces of the layout into its four parts. */
  lemma Regroup(m: string, h: string, s: string, r: string, c: string)
    ensures m + h + s + r + s + c + s + r == m + (h + s + r + s) + c + (s + r)
  {
    assert m + h + s + r + s == m + (h + s + r + s);
    assert m + (h + s + r + s) + c + s + r == m + (h + s + r + s) + c + (s + r);
  }

  /**
   * Splits a text into the part before `opening` (of the given length) and
   * the part between `opening` and the trailing `closing`; None when either
   * is not where it should be.
   */
  function SplitAround(text: string, headLength: nat, opening: string, closing: string): Option<(string, string)> {
    if headLength + |opening| + |closing| <= |text|
       && text[headLength..headLength + |opening|] == opening
       && text[|text| - |closing|..] == closing
    then Some((text[..headLength], text[headLength + |opening|..|text| - |closing|]))
    else None
  }

  /** Splitting a concatenation around its own delimiters gives back its parts. */
  lemma SplitAroundConcatenation(head: string, opening: string, middle: string, closing: string)
    ensures SplitAround(head + opening + middle + closing, |head|, opening, closing) == Some((head, middle))
  {
    var t := head + opening + middle + closing;
    assert t == head + (opening + (middle + closing));
    assert t[..|head|] == head;
    assert t[|head|..] == opening + (middle + closing);
    assert t[|head| + |opening|..] == middle + closing;
  }

  /** A text that splits is the concatenation of its parts and the delimiters. */
  lemma SplitAroundIsExact(text: string, headLength: nat, opening: string, closing: string)
    requires SplitAround(text, headLength, opening, closing).Some?
    ensures var (head, middle) := SplitAround(text, headLength, opening, closing).value;
            head + opening + middle + closing == text
  {
    var a := headLength + |opening|;
    var b := |text| - |closing|;
    assert text[..headLength] + text[headLength..a] == text[..a];
    assert text[..a] + text[a..b] == text[..b];
    assert text[..b] + text[b..] == text;
  }

  /**
   * Reads a text of the appendCauseOfFailure layout back into its message
   * (of the given length) and its cause: None when the heading, the opening
   * rule line or the closing rule line is not where the layout puts them.
   */
  function ParseCauseOfFailure(text: string, messageLength: nat, lineSeparator: string): Option<(string, string)> {
    SplitAround(text, messageLength, Opening(lineSeparator), Closing(lineSeparator))
  }

  /** The message and the cause are recovered from the layout. */
  lemma CauseOfFailureRoundTrip(message: string, causeOfFailure: string, lineSeparator: string)
    ensures ParseCauseOfFailure(AppendCauseOfFailure(message, causeOfFailure, lineSeparator), |message|, lineSeparator)
            == Some((message, causeOfFailure))
  {
    LayoutParts(message, causeOfFailure, lineSeparator);
    SplitAroundConcatenation(message, Opening(lineSeparator), causeOfFailure, Closing(lineSeparator));
  }

  /** Every text that parses is the layout of what it parses to. */
  lemma ParsedTextIsTheLayout(text: string, messageLength: nat, lineSeparator: string)
    requires ParseCauseOfFailure(text, messageLength, lineSeparator).Some?
    ensures var (message, cause) := ParseCauseOfFailure(text, messageLength, lineSeparator).value;
            AppendCauseOfFailure(message, cause, lineSeparator) == text
  {
    var (message, cause) := ParseCauseOfFailure(text, messageLength, lineSeparator).value;
    SplitAroundIsExact(text, messageLength, Opening(lineSeparator), Closing(lineSeparator));
    LayoutParts(message, cause, lineSeparator);
  }
}
