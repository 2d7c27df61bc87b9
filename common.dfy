/**
 * Shared vocabulary of the model: optional values, results, the error
 * taxonomy of the client (aw_api/exceptions.py plus the generic failures of a
 * page whose markup does not have the expected shape), the values a record
 * field can hold, and the "is it an instance of this class" view of a Python
 * object that the hand-written `__eq__` methods test.
 */
module Common {

  datatype Option<+T> = None | Some(value: T)

  /** The part of a page whose shape was not as expected. */
  datatype Field =
    | Notifications   // no <p> and no <div> element at the index examined
    | NameBlock       // div.name missing or with fewer than two lines
    | ClanBlock       // div.clan missing, too few children or too few tokens
    | TotalBlock      // div.total missing or its battle count not an integer
    | DamageBlock     // fewer than four div.list_pad or too few lines/tokens
    | SpottingValue   // the spotting total is not a number
    | KillsBlock      // the kills container chain is broken or not a number
    | TierBlock       // the tier breakdown is malformed
    | WinrateValue    // the winrate text is not a number
    | DamageValue     // the average damage text is not a number
    | RosterBlock     // no div.cont on a battalion page
    | RosterLine      // a member line does not split into four tokens or its id is not an integer
    | SearchKey       // a key of the search response is not an integer

  datatype Error =
    | NotAuth                                   // NotAuthException
    | UserNotFound(nickname: Option<string>)    // UserNotFoundException
    | ClosedStatistics(nickname: Option<string>) // UserHasClosedStatisticsException
    | BattalionNotFound                         // BattalionNotFound
    | BadHttpStatus(statusCode: int)            // BadHTTPStatusCode
    | TooShortQuery(length: nat)                // BattalionSearchTooShortQuery
    | NotFoundByName(name: string)              // BattalionSearchBattalionNotFound
    | Malformed(field: Field)                   // IndexError, ValueError, AttributeError

  datatype Result<+T> = Ok(value: T) | Err(error: Error)
  {
    predicate IsFailure() {
      Err?
    }

    function PropagateFailure<U>(): Result<U>
      requires Err?
    {
      Err(error)
    }

    function Extract(): T
      requires Ok?
    {
      value
    }
  }

  /**
   * Applies `f` to each element in order, as a loop that appends each result
   * and stops at the first exception: Ok with one result per element exactly
   * when no element fails, otherwise the error of the first failing element.
   */
  function MapAll<A, B>(xs: seq<A>, f: A -> Result<B>): (r: Result<seq<B>>)
    ensures r.Ok? ==> |r.value| == |xs|
    decreases |xs|
  {
    if xs == [] then Ok([])
    else
      var init := xs[..|xs| - 1];
      match MapAll(init, f)
      case Err(e) => Err(e)
      case Ok(done) =>
        match f(xs[|xs| - 1])
        case Err(e) => Err(e)
        case Ok(y) => Ok(done + [y])
  }

  /** One more element: the loop step of `MapAll`. */
  lemma MapAllSnoc<A, B>(xs: seq<A>, x: A, f: A -> Result<B>)
    ensures MapAll(xs + [x], f) ==
      match MapAll(xs, f)
      case Err(e) => Err(e)
      case Ok(done) => (match f(x) case Err(e) => Err(e) case Ok(y) => Ok(done + [y]))
  {
    assert (xs + [x])[..|xs|] == xs;
  }

  /**
   * The loop succeeds exactly when every element succeeds, and then holds
   * each element's value at the element's position.
   */
  lemma {:induction false} MapAllOk<A, B>(xs: seq<A>, f: A -> Result<B>)
    ensures MapAll(xs, f).Ok? <==> forall i :: 0 <= i < |xs| ==> f(xs[i]).Ok?
    ensures MapAll(xs, f).Ok? ==> forall i :: 0 <= i < |xs| ==> MapAll(xs, f).value[i] == f(xs[i]).value
    decreases |xs|
  {
    if xs != [] {
      var init := xs[..|xs| - 1];
      MapAllOk(init, f);
      assert forall i :: 0 <= i < |init| ==> init[i] == xs[i];
    }
  }

  /** The error reported is that of the first element that fails. */
  lemma {:induction false} MapAllFirstError<A, B>(xs: seq<A>, f: A -> Result<B>, k: nat)
    requires k < |xs| && f(xs[k]).Err?
    requires forall i :: 0 <= i < k ==> f(xs[i]).Ok?
    ensures MapAll(xs, f) == Err(f(xs[k]).error)
    decreases |xs|
  {
    var init := xs[..|xs| - 1];
    if k < |xs| - 1 {
      MapAllFirstError(init, f, k);
    } else {
      MapAllOk(init, f);
      assert forall i :: 0 <= i < |init| ==> init[i] == xs[i];
    }
  }

  /** A failure is the error of one of the elements. */
  lemma {:induction false} MapAllErrOf<A, B>(xs: seq<A>, f: A -> Result<B>)
    ensures MapAll(xs, f).Err? ==> exists x :: x in xs && f(x) == Err(MapAll(xs, f).error)
    decreases |xs|
  {
    if xs != [] {
      var init := xs[..|xs| - 1];
      MapAllErrOf(init, f);
      if MapAll(init, f).Err? {
        var x :| x in init && f(x) == Err(MapAll(init, f).error);
        assert x in xs;
      } else {
        assert xs[|xs| - 1] in xs;
      }
    }
  }

  /** Once an element has failed, later elements cannot change the outcome. */
  lemma {:induction false} MapAllErrPrefix<A, B>(xs: seq<A>, ys: seq<A>, f: A -> Result<B>)
    requires MapAll(xs, f).Err?
    ensures MapAll(xs + ys, f) == MapAll(xs, f)
    decreases |ys|
  {
    if ys != [] {
      var init := ys[..|ys| - 1];
      assert xs + ys == (xs + init) + [ys[|ys| - 1]];
      MapAllErrPrefix(xs, init, f);
      MapAllSnoc(xs + init, ys[|ys| - 1], f);
    } else {
      assert xs + ys == xs;
    }
  }

  /**
   * One step of a loop over `xs` that stops at the first failure: a success
   * extends the values, and a failure is the outcome of the whole sequence.
   */
  lemma MapAllStep<A, B>(xs: seq<A>, i: nat, f: A -> Result<B>, done: seq<B>)
    requires i < |xs| && MapAll(xs[..i], f) == Ok(done)
    ensures f(xs[i]).Ok? ==> MapAll(xs[..i + 1], f) == Ok(done + [f(xs[i]).value])
    ensures f(xs[i]).Err? ==> MapAll(xs, f) == Err(f(xs[i]).error)
  {
    MapAllSnocPrefix(xs, i, f);
    if f(xs[i]).Err? {
      MapAllStopsAt(xs, i + 1, f);
    }
  }

  lemma MapAllSnocPrefix<A, B>(xs: seq<A>, i: nat, f: A -> Result<B>)
    requires i < |xs|
    ensures MapAll(xs[..i + 1], f) ==
      match MapAll(xs[..i], f)
      case Err(e) => Err(e)
      case Ok(done) => (match f(xs[i]) case Err(e) => Err(e) case Ok(y) => Ok(done + [y]))
  {
    assert xs[..i + 1] == xs[..i] + [xs[i]];
    MapAllSnoc(xs[..i], xs[i], f);
  }

  /** A failure within the first `k` elements is the outcome of the whole sequence. */
  lemma MapAllStopsAt<A, B>(xs: seq<A>, k: nat, f: A -> Result<B>)
    requires k <= |xs| && MapAll(xs[..k], f).Err?
    ensures MapAll(xs, f) == MapAll(xs[..k], f)
  {
    MapAllErrPrefix(xs[..k], xs[k..], f);
    assert xs[..k] + xs[k..] == xs;
  }

  /** An element that fails after a prefix that succeeds is the outcome, whatever follows. */
  lemma MapAllFailsWithin<A, B>(pre: seq<A>, x: A, post: seq<A>, f: A -> Result<B>)
    requires MapAll(pre, f).Ok? && f(x).Err?
    ensures MapAll(pre + [x] + post, f) == Err(f(x).error)
  {
    MapAllSnoc(pre, x, f);
    MapAllErrPrefix(pre + [x], post, f);
  }

  /** Concatenation regrouped; the solver does not find this on its own cheaply. */
  lemma Assoc<T>(a: seq<T>, b: seq<T>, c: seq<T>)
    ensures a + (b + c) == (a + b) + c
  {
  }

  /** A Python value as seen through a record's attribute or a result dict. */
  datatype Value = Num(r: real) | Int(i: int) | Text(s: string) | Null

  /**
   * The argument of `__eq__`: either an instance of the class being compared
   * (carrying its fields) or an object of any other class.
   */
  datatype Instance<+T> = Same(fields: T) | Foreign
}
