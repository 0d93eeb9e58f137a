/**
 * Cause-chain utilities over throwables (org.neo4j.helpers.Exceptions).
 *
 * A throwable is a heap object with a cause link and a list of suppressed
 * throwables. The walks along the cause chain take the chain as a ghost
 * sequence that ends at a throwable without a cause; that is what makes
 * them terminate, since the Java loops themselves run forever on a cycle.
 */
module Exceptions {
  import opened Wrappers

  /** The classes of the Java hierarchy that the utilities tell apart. */
  datatype ClassName = ExceptionClass | RuntimeExceptionClass | ErrorClass | Named(name: string)

  /** An exception raised by one of the utilities (or by the JDK methods they call). */
  datatype Raised =
    | Thrown(throwable: Throwable)          // an existing throwable, rethrown as it is
    | NullPointer                          // java.lang.NullPointerException
    | IllegalArgument(message: string)     // java.lang.IllegalArgumentException
    | IllegalState                         // java.lang.IllegalStateException

  const RootCauseOfNullMessage := "Cannot obtain rootCause from (null)"
  const SelfCausationMessage := "Self-causation not permitted"
  const SelfSuppressionMessage := "Self-suppression not permitted"

  /**
   * java.lang.Throwable. `cause` is what getCause() returns; `causeInitialized`
   * records whether the cause was ever set (the JDK keeps the cause field
   * pointing at the throwable itself until then).
   */
  class Throwable {
    const classes: set<ClassName>
    const message: Option<string>
    const suppressionEnabled: bool
    var cause: Throwable?
    var causeInitialized: bool
    var suppressed: seq<Throwable>

    /** new Throwable(message), of the given classes: no cause yet, nothing suppressed. */
    constructor (classes: set<ClassName>, message: Option<string>)
      ensures this.classes == classes && this.message == message && suppressionEnabled
      ensures cause == null && !causeInitialized && suppressed == []
    {
      this.classes := classes;
      this.message := message;
      suppressionEnabled := true;
      cause := null;
      causeInitialized := false;
      suppressed := [];
    }

    /**
     * Throwable.initCause: refuses a second initialisation and self-causation,
     * otherwise sets the cause.
     */
    method InitCause(c: Throwable?) returns (raised: Option<Raised>)
      modifies this
      ensures old(causeInitialized) ==> raised == Some(IllegalState)
      ensures !old(causeInitialized) && c == this ==> raised == Some(IllegalArgument(SelfCausationMessage))
      ensures raised.None? <==> !old(causeInitialized) && c != this
      ensures raised.None? ==> cause == c && causeInitialized
      ensures raised.Some? ==> unchanged(this)
      ensures suppressed == old(suppressed)
    {
      if causeInitialized {
        return Some(IllegalState);
      }
      if c == this {
        return Some(IllegalArgument(SelfCausationMessage));
      }
      cause := c;
      causeInitialized := true;
      raised := None;
    }

    /**
     * Throwable.addSuppressed for a non-null argument: refuses self-suppression,
     * and records nothing when suppression is disabled for this throwable.
     */
    method AddSuppressed(exception: Throwable) returns (raised: Option<Raised>)
      modifies this
      ensures raised.Some? <==> exception == this
      ensures raised.Some? ==> raised.value == IllegalArgument(SelfSuppressionMessage) && unchanged(this)
      ensures suppressed == if exception != this && suppressionEnabled
                            then old(suppressed) + [exception] else old(suppressed)
      ensures cause == old(cause) && causeInitialized == old(causeInitialized)
    {
      if exception == this {
        return Some(IllegalArgument(SelfSuppressionMessage));
      }
      if suppressionEnabled {
        suppressed := suppressed + [exception];
      }
      raised := None;
    }
  }

  /**
   * stringify(throwable): null for null, otherwise the printed stack trace,
   * which this model takes from `printStackTrace` as given.
   */
  function Stringify(throwable: Throwable?, printStackTrace: Throwable -> string): (r: Option<string>)
    ensures r.None? <==> throwable == null
    ensures throwable != null ==> r == Some(printStackTrace(throwable))
  {
    if throwable == null then None else Some(printStackTrace(throwable))
  }

  /**
   * instanceof: `classes` lists a throwable's class and those of its
   * superclasses the utilities name; a RuntimeException is also an Exception
   * whether or not ExceptionClass is listed.
   */
  predicate InstanceOf(t: Throwable, c: ClassName) {
    c in t.classes || (c == ExceptionClass && RuntimeExceptionClass in t.classes)
  }

  predicate IsUnchecked(t: Throwable) {
    RuntimeExceptionClass in t.classes || ErrorClass in t.classes
  }

  /** throwIfUnchecked: what it raises, None when it returns normally. */
  function ThrowIfUnchecked(exception: Throwable?): (raised: Option<Raised>)
    ensures exception == null ==> raised == Some(NullPointer)
    ensures exception != null ==> (raised.Some? <==> IsUnchecked(exception))
    ensures exception != null && raised.Some? ==> raised.value == Thrown(exception)
  {
    if exception == null then Some(NullPointer)
    else if RuntimeExceptionClass in exception.classes then Some(Thrown(exception))
    else if ErrorClass in exception.classes then Some(Thrown(exception))
    else None
  }

  /** throwIfInstanceOf: what it raises, None when it returns normally. */
  function ThrowIfInstanceOf(exception: Throwable?, clazz: ClassName): (raised: Option<Raised>)
    ensures exception == null ==> raised == Some(NullPointer)
    ensures exception != null ==> (raised.Some? <==> InstanceOf(exception, clazz))
    ensures exception != null && raised.Some? ==> raised.value == Thrown(exception)
  {
    if exception == null then Some(NullPointer)
    else if InstanceOf(exception, clazz) then Some(Thrown(exception))
    else None
  }

  /**
   * Rethrowing the unchecked ones is rethrowing the RuntimeExceptions and then
   * the Errors: throwIfUnchecked agrees with two throwIfInstanceOf calls.
   */
  lemma UncheckedIsRuntimeExceptionOrError(exception: Throwable?)
    ensures ThrowIfUnchecked(exception) ==
            match ThrowIfInstanceOf(exception, RuntimeExceptionClass)
            case Some(r) => Some(r)
            case None => ThrowIfInstanceOf(exception, ErrorClass)
  {
  }

  /**
   * `chain` is the cause chain starting at `e`: e, e.cause, e.cause.cause, ...
   * up to the first throwable without a cause (empty when e is null).
   */
  ghost predicate IsChain(e: Throwable?, chain: seq<Throwable>)
    reads chain
  {
    && (e == null <==> chain == [])
    && (e != null ==> chain[0] == e)
    && (forall i :: 0 <= i < |chain| - 1 ==> chain[i].cause == chain[i + 1])
    && (chain != [] ==> chain[|chain| - 1].cause == null)
  }

  ghost predicate Disjoint(a: seq<Throwable>, b: seq<Throwable>) {
    forall i, j :: 0 <= i < |a| && 0 <= j < |b| ==> a[i] != b[j]
  }

  /**
   * peel: the first throwable on the chain that toPeel rejects, or null when
   * toPeel accepts them all.
   */
  method Peel(exception: Throwable?, toPeel: Throwable -> bool, ghost chain: seq<Throwable>)
    returns (r: Throwable?)
    requires IsChain(exception, chain)
    ensures r == null <==> forall k :: 0 <= k < |chain| ==> toPeel(chain[k])
    ensures r != null ==>
      exists k :: 0 <= k < |chain| && chain[k] == r && !toPeel(r) &&
        forall j :: 0 <= j < k ==> toPeel(chain[j])
  {
    var current := exception;
    ghost var i := 0;
    while current != null
      invariant 0 <= i <= |chain|
      invariant current == if i < |chain| then chain[i] else null
      invariant forall j :: 0 <= j < i ==> toPeel(chain[j])
      decreases |chain| - i
    {
      if !toPeel(current) {
        break;
      }
      current := current.cause;
      i := i + 1;
    }
    r := current;
  }

  /**
   * rootCause: IllegalArgumentException for null, otherwise the last throwable
   * of the cause chain, the one without a cause.
   */
  method RootCause(caughtException: Throwable?, ghost chain: seq<Throwable>)
    returns (r: Result<Throwable, Raised>)
    requires IsChain(caughtException, chain)
    ensures caughtException == null ==> r == Failure(IllegalArgument(RootCauseOfNullMessage))
    ensures caughtException != null ==>
      r.Success? && r.value == chain[|chain| - 1] && r.value.cause == null
  {
    if caughtException == null {
      return Failure(IllegalArgument(RootCauseOfNullMessage));
    }
    var root: Throwable := caughtException;
    ghost var i := 0;
    while root.cause != null
      invariant 0 <= i < |chain| && root == chain[i]
      invariant root.cause == if i < |chain| - 1 then chain[i + 1] else null
      decreases |chain| - i
    {
      root := root.cause;
      i := i + 1;
    }
    r := Success(root);
  }

  /** contains(cause, toLookFor): some throwable of the cause chain satisfies toLookFor. */
  method Contains(cause: Throwable?, toLookFor: Throwable -> bool, ghost chain: seq<Throwable>)
    returns (found: bool)
    requires IsChain(cause, chain)
    ensures found <==> exists k :: 0 <= k < |chain| && toLookFor(chain[k])
  {
    var current := cause;
    ghost var i := 0;
    while current != null
      invariant 0 <= i <= |chain|
      invariant current == if i < |chain| then chain[i] else null
      invariant forall j :: 0 <= j < i ==> !toLookFor(chain[j])
      decreases |chain| - i
    {
      if toLookFor(current) {
        return true;
      }
      current := current.cause;
      i := i + 1;
    }
    found := false;
  }

  /** Predicates.instanceOfAny: an instance of at least one of the classes. */
  predicate InstanceOfAny(anyOfTheseClasses: seq<ClassName>, t: Throwable): (r: bool)
    ensures r <==> exists c :: c in anyOfTheseClasses && InstanceOf(t, c)
    ensures anyOfTheseClasses == [] ==> !r
  {
    exists k :: 0 <= k < |anyOfTheseClasses| && InstanceOf(t, anyOfTheseClasses[k])
  }

  /** String.contains. */
  predicate IsSubstring(needle: string, haystack: string)
    decreases |haystack|
  {
    needle <= haystack || (haystack != [] && IsSubstring(needle, haystack[1..]))
  }

  /** The needle occurs in the haystack starting at position i. */
  predicate OccursAt(needle: string, haystack: string, i: int) {
    0 <= i && i + |needle| <= |haystack| && haystack[i..i + |needle|] == needle
  }

  /** String.contains holds exactly when the needle occurs at some position of the haystack. */
  lemma {:induction false} IsSubstringIsOccurrence(needle: string, haystack: string)
    ensures IsSubstring(needle, haystack) <==> exists i :: OccursAt(needle, haystack, i)
    decreases |haystack|
  {
    if haystack != [] {
      IsSubstringIsOccurrence(needle, haystack[1..]);
      var tail := haystack[1..];
      if needle <= haystack {
        assert haystack[0..|needle|] == needle;
        assert OccursAt(needle, haystack, 0);
      }
      if IsSubstring(needle, tail) {
        var i :| OccursAt(needle, tail, i);
        assert haystack[i + 1..i + 1 + |needle|] == tail[i..i + |needle|];
        assert OccursAt(needle, haystack, i + 1);
      }
      if exists i :: OccursAt(needle, haystack, i) {
        var i :| OccursAt(needle, haystack, i);
        if i > 0 {
          assert tail[i - 1..i - 1 + |needle|] == haystack[i..i + |needle|];
          assert OccursAt(needle, tail, i - 1);
        } else {
          assert needle <= haystack;
        }
      }
    } else {
      if needle == [] {
        assert OccursAt(needle, haystack, 0);
      }
    }
  }

  /** contains(cause, anyOfTheseClasses...): some throwable of the chain is of one of the classes. */
  method ContainsInstanceOf(cause: Throwable?, anyOfTheseClasses: seq<ClassName>, ghost chain: seq<Throwable>)
    returns (found: bool)
    requires IsChain(cause, chain)
    ensures found <==> exists k :: 0 <= k < |chain| && InstanceOfAny(anyOfTheseClasses, chain[k])
  {
    found := Contains(cause, (t: Throwable) => InstanceOfAny(anyOfTheseClasses, t), chain);
  }

  /**
   * contains(cause, containsMessage, anyOfTheseClasses...): some throwable of
   * the chain has a message containing containsMessage and is of one of the classes.
   */
  method ContainsMessage(cause: Throwable?, containsMessage: string, anyOfTheseClasses: seq<ClassName>,
                         ghost chain: seq<Throwable>)
    returns (found: bool)
    requires IsChain(cause, chain)
    ensures found <==> (exists k :: 0 <= k < |chain| &&
                          chain[k].message.Some? && IsSubstring(containsMessage, chain[k].message.value) &&
                          InstanceOfAny(anyOfTheseClasses, chain[k]))
  {
    found := Contains(cause,
      (t: Throwable) => t.message.Some? && IsSubstring(containsMessage, t.message.value) && InstanceOfAny(anyOfTheseClasses, t),
      chain);
  }

  /**
   * combine(first, second): with both present, makes second the cause of the
   * root of first's chain and returns first, so that first's chain continues
   * with second's (when the two chains share no throwable; otherwise the
   * cause links now form a cycle). The only throwable it changes is that root.
   */
  method Combine(first: Throwable?, second: Throwable?,
                 ghost firstChain: seq<Throwable>, ghost secondChain: seq<Throwable>)
    returns (r: Result<Throwable?, Raised>)
    requires IsChain(first, firstChain)
    modifies firstChain
    ensures first == null ==> r == Success(second)
    ensures first != null && second == null ==> r == Success(first)
    ensures first != null && second != null ==>
      var root := firstChain[|firstChain| - 1];
      && (old(root.causeInitialized) ==> r == Failure(IllegalState))
      && (!old(root.causeInitialized) && second == root ==> r == Failure(IllegalArgument(SelfCausationMessage)))
      && (!old(root.causeInitialized) && second != root ==>
            && r == Success(first) && root.cause == second && root.causeInitialized
            && (old(IsChain(second, secondChain)) && Disjoint(firstChain, secondChain) ==>
                  IsChain(first, firstChain + secondChain)))
    ensures r.Failure? || first == null || second == null ==> unchanged(firstChain)
    ensures forall k :: 0 <= k < |firstChain| - 1 ==> unchanged(firstChain[k])
    ensures forall k :: 0 <= k < |firstChain| ==> firstChain[k].suppressed == old(firstChain[k].suppressed)
  {
    ghost var secondIsChain := IsChain(second, secondChain);
    if first == null {
      return Success(second);
    }
    if second == null {
      return Success(first);
    }
    var current: Throwable := first;
    ghost var i := 0;
    while current.cause != null
      invariant 0 <= i < |firstChain| && current == firstChain[i]
      modifies {}
      decreases |firstChain| - i
    {
      current := current.cause;
      i := i + 1;
    }
    forall k | 0 <= k < |firstChain| - 1
      ensures firstChain[k] != current
    {
      assert firstChain[k].cause == firstChain[k + 1];
    }
    var raised := current.InitCause(second);
    if raised.Some? {
      return Failure(raised.value);
    }
    if secondIsChain && Disjoint(firstChain, secondChain) {
      forall k | 0 <= k < |secondChain|
        ensures secondChain[k].cause == old(secondChain[k].cause)
      {
        assert secondChain[k] != current;
      }
    }
    r := Success(first);
  }

  /**
   * chain(initial, current): with initial present, records current (when present)
   * as suppressed by initial and returns initial. Nothing else changes.
   */
  method Chain(initial: Throwable?, current: Throwable?) returns (r: Result<Throwable?, Raised>)
    modifies initial
    ensures initial == null ==> r == Success(current)
    ensures initial != null && current == initial ==>
      r == Failure(IllegalArgument(SelfSuppressionMessage)) && unchanged(initial)
    ensures initial != null && current != initial ==>
      && r == Success(initial)
      && initial.suppressed ==
           (if current != null && initial.suppressionEnabled then old(initial.suppressed) + [current]
            else old(initial.suppressed))
      && initial.cause == old(initial.cause) && initial.causeInitialized == old(initial.causeInitialized)
  {
    if initial == null {
      return Success(current);
    }
    if current != null {
      var raised := initial.AddSuppressed(current);
      if raised.Some? {
        return Failure(raised.value);
      }
    }
    r := Success(initial);
  }

  /**
   * The throwables reachable from those in `reach` through a cause or a
   * suppressed link other than a self-reference stay in `reach`, and every such
   * link leads to a smaller rank: the cause/suppressed graph is acyclic.
   */
  ghost predicate SearchGraph(reach: set<Throwable>, rank: map<Throwable, nat>)
    reads reach
  {
    forall t :: t in reach ==>
      && t in rank
      && (t.cause != null && t.cause != t ==>
            t.cause in reach && t.cause in rank && rank[t.cause] < rank[t])
      && (forall k :: 0 <= k < |t.suppressed| && t.suppressed[k] != t ==>
            t.suppressed[k] in reach && t.suppressed[k] in rank && rank[t.suppressed[k]] < rank[t])
  }

  /**
   * The first throwable that matches, searching e, then its cause's hierarchy,
   * then the hierarchies of its suppressed throwables in list order.
   */
  ghost function FirstMatch(e: Throwable, matches: Throwable -> bool,
                            reach: set<Throwable>, rank: map<Throwable, nat>): Option<Throwable>
    requires SearchGraph(reach, rank) && e in reach
    reads reach
    decreases rank[e], 1, 0
  {
    if matches(e) then Some(e)
    else if e.cause != null && e.cause != e && FirstMatch(e.cause, matches, reach, rank).Some? then
      FirstMatch(e.cause, matches, reach, rank)
    else FirstMatchAmong(e, 0, matches, reach, rank)
  }

  /** The first match in the hierarchies of e.suppressed[i..], skipping e itself. */
  ghost function FirstMatchAmong(e: Throwable, i: nat, matches: Throwable -> bool,
                                 reach: set<Throwable>, rank: map<Throwable, nat>): Option<Throwable>
    requires SearchGraph(reach, rank) && e in reach && i <= |e.suppressed|
    reads reach
    decreases rank[e], 0, |e.suppressed| - i
  {
    if i == |e.suppressed| then None
    else if e.suppressed[i] != e && FirstMatch(e.suppressed[i], matches, reach, rank).Some? then
      FirstMatch(e.suppressed[i], matches, reach, rank)
    else FirstMatchAmong(e, i + 1, matches, reach, rank)
  }

  /** findCauseOrSuppressed: empty for null, otherwise the first match of the search order above. */
  method FindCauseOrSuppressed(e: Throwable?, matches: Throwable -> bool,
                               ghost reach: set<Throwable>, ghost rank: map<Throwable, nat>)
    returns (r: Option<Throwable>)
    requires SearchGraph(reach, rank)
    requires e != null ==> e in reach
    ensures e == null ==> r == None
    ensures e != null && matches(e) ==> r == Some(e)
    ensures e != null ==> r == FirstMatch(e, matches, reach, rank)
    decreases if e != null && e in rank then rank[e] else 0
  {
    if e == null {
      return None;
    }
    if matches(e) {
      return Some(e);
    }
    if e.cause != null && e.cause != e {
      var cause := FindCauseOrSuppressed(e.cause, matches, reach, rank);
      if cause.Some? {
        return cause;
      }
    }
    var suppressed := e.suppressed;
    for i := 0 to |suppressed|
      invariant FirstMatchAmong(e, 0, matches, reach, rank) == FirstMatchAmong(e, i, matches, reach, rank)
    {
      if suppressed[i] == e {
        continue;
      }
      var cause := FindCauseOrSuppressed(suppressed[i], matches, reach, rank);
      if cause.Some? {
        return cause;
      }
    }
    r := None;
  }

  /** Whatever the search returns matches and lies in the searched graph. */
  lemma {:induction false} FirstMatchSound(e: Throwable, matches: Throwable -> bool,
                                           reach: set<Throwable>, rank: map<Throwable, nat>)
    requires SearchGraph(reach, rank) && e in reach
    ensures var r := FirstMatch(e, matches, reach, rank);
            r.Some? ==> matches(r.value) && r.value in reach
    decreases rank[e], 1, 0
  {
    if !matches(e) {
      if e.cause != null && e.cause != e {
        FirstMatchSound(e.cause, matches, reach, rank);
      }
      FirstMatchAmongSound(e, 0, matches, reach, rank);
    }
  }

  lemma {:induction false} FirstMatchAmongSound(e: Throwable, i: nat, matches: Throwable -> bool,
                                                reach: set<Throwable>, rank: map<Throwable, nat>)
    requires SearchGraph(reach, rank) && e in reach && i <= |e.suppressed|
    ensures var r := FirstMatchAmong(e, i, matches, reach, rank);
            r.Some? ==> matches(r.value) && r.value in reach
    decreases rank[e], 0, |e.suppressed| - i
  {
    if i < |e.suppressed| {
      if e.suppressed[i] != e {
        FirstMatchSound(e.suppressed[i], matches, reach, rank);
      }
      FirstMatchAmongSound(e, i + 1, matches, reach, rank);
    }
  }

  /**
   * t is e itself or lies in the hierarchy below e: reached through cause and
   * suppressed links, none of them a self-reference.
   */
  ghost predicate Reaches(e: Throwable, t: Throwable, reach: set<Throwable>, rank: map<Throwable, nat>)
    requires SearchGraph(reach, rank) && e in reach
    reads reach
    decreases rank[e], 1, 0
  {
    || e == t
    || (e.cause != null && e.cause != e && Reaches(e.cause, t, reach, rank))
    || ReachesAmong(e, 0, t, reach, rank)
  }

  /** t lies in the hierarchy of one of e.suppressed[i..] other than e itself. */
  ghost predicate ReachesAmong(e: Throwable, i: nat, t: Throwable, reach: set<Throwable>, rank: map<Throwable, nat>)
    requires SearchGraph(reach, rank) && e in reach && i <= |e.suppressed|
    reads reach
    decreases rank[e], 0, |e.suppressed| - i
  {
    && i < |e.suppressed|
    && ((e.suppressed[i] != e && Reaches(e.suppressed[i], t, reach, rank)) || ReachesAmong(e, i + 1, t, reach, rank))
  }

  /**
   * The search is complete: when any throwable of e's hierarchy of causes and
   * suppressed throwables matches, the search finds a match.
   */
  lemma {:induction false} SearchComplete(e: Throwable, t: Throwable, matches: Throwable -> bool,
                                          reach: set<Throwable>, rank: map<Throwable, nat>)
    requires SearchGraph(reach, rank) && e in reach
    requires Reaches(e, t, reach, rank) && matches(t)
    ensures FirstMatch(e, matches, reach, rank).Some?
    decreases rank[e], 1, 0
  {
    if !matches(e) {
      if e.cause != null && e.cause != e && Reaches(e.cause, t, reach, rank) {
        SearchComplete(e.cause, t, matches, reach, rank);
      } else {
        SearchCompleteAmong(e, 0, t, matches, reach, rank);
      }
    }
  }

  lemma {:induction false} SearchCompleteAmong(e: Throwable, i: nat, t: Throwable, matches: Throwable -> bool,
                                               reach: set<Throwable>, rank: map<Throwable, nat>)
    requires SearchGraph(reach, rank) && e in reach && i <= |e.suppressed|
    requires ReachesAmong(e, i, t, reach, rank) && matches(t)
    ensures FirstMatchAmong(e, i, matches, reach, rank).Some?
    decreases rank[e], 0, |e.suppressed| - i
  {
    if e.suppressed[i] != e && Reaches(e.suppressed[i], t, reach, rank) {
      SearchComplete(e.suppressed[i], t, matches, reach, rank);
    } else {
      SearchCompleteAmong(e, i + 1, t, matches, reach, rank);
    }
  }

  /**
   * The search covers the cause chain: when `contains` would find a match on
   * e's cause chain, findCauseOrSuppressed finds one too.
   */
  lemma {:induction false} CauseChainMatchIsFound(e: Throwable, chain: seq<Throwable>, matches: Throwable -> bool,
                                                  reach: set<Throwable>, rank: map<Throwable, nat>)
    requires SearchGraph(reach, rank) && e in reach
    requires IsChain(e, chain)
    requires exists k :: 0 <= k < |chain| && matches(chain[k])
    ensures FirstMatch(e, matches, reach, rank).Some?
    decreases |chain|
  {
    if !matches(e) {
      var k :| 0 <= k < |chain| && matches(chain[k]);
      assert k > 0;
      var next := chain[1];
      assert e.cause == next;
      assert IsChain(next, chain[1..]) && matches(chain[1..][k - 1]);
      CauseChainMatchIsFound(next, chain[1..], matches, reach, rank);
    }
  }
}
