/**
 * The train lookup of app.py: classifying the outcome of the upstream fetch
 * (get_train_location) and validating the submitted train number before the
 * lookup is made (index).
 */
module Tracker {
  import opened Wrappers
  import opened Text
  import opened Markup

  const NotNumericMessage := "Train number should be numeric."
  const NotFoundMessage := "Train data not found or site unavailable."
  const NoLocationMessage := "Could not find location info."
  const TimeoutMessage := "Request timed out. Please try again."
  const ErrorPrefix := "An error occurred: "

  /** What a lookup produces: the scraped record, or a message for the user. */
  datatype LookupResult =
    | Success(trainNumber: string, currentLocation: string, delay: Option<string>)
    | Failure(error: string)

  /**
   * How the single GET to the tracking site ended: it timed out, it raised
   * another exception (with that exception's text), or it answered with a
   * status code and a page, given as its elements in document order.
   */
  datatype Fetch =
    | TimedOut
    | Raised(message: string)
    | Responded(status: int, body: seq<Element>)

  const LocationSelector := Selector("h4", None)
  const DelaySpanSelector := Selector("span", Some("delay"))
  const DelayParagraphSelector := Selector("p", Some("delay"))

  /**
   * The location: the stripped text of the first h4 of the page, or None when
   * there is no h4 or that text is blank.
   */
  function Location(body: seq<Element>): (r: Option<string>)
    ensures r.Some? ==> r.value != [] && !IsSpace(r.value[0]) && !IsSpace(r.value[|r.value| - 1])
    ensures (forall i :: 0 <= i < |body| ==> !Matches(LocationSelector, body[i])) ==> r.None?
  {
    match Find(body, LocationSelector)
    case None => None
    case Some(heading) =>
      if Trim(heading.text) == [] then None else Some(Trim(heading.text))
  }

  /**
   * The delay: the stripped text of the first span of class "delay", otherwise
   * of the first p of class "delay"; None only when the page has neither.
   */
  function Delay(body: seq<Element>): (r: Option<string>)
    ensures r.None? <==> forall i :: 0 <= i < |body| ==>
      !Matches(DelaySpanSelector, body[i]) && !Matches(DelayParagraphSelector, body[i])
  {
    match Find(body, DelaySpanSelector)
    case Some(span) => Some(Trim(span.text))
    case None =>
      match Find(body, DelayParagraphSelector)
      case Some(paragraph) => Some(Trim(paragraph.text))
      case None => None
  }

  /** get_train_location, with the network call replaced by its outcome. */
  function Lookup(trainNumber: string, fetched: Fetch): (r: LookupResult)
    ensures r.Success? ==> r.trainNumber == trainNumber
    ensures r.Success? ==> r.currentLocation != [] && !IsSpace(r.currentLocation[0])
                           && !IsSpace(r.currentLocation[|r.currentLocation| - 1])
  {
    match fetched
    case TimedOut => Failure(TimeoutMessage)
    case Raised(message) => Failure(ErrorPrefix + message)
    case Responded(status, body) =>
      if status != 200 then
        Failure(NotFoundMessage)
      else
        var location := Location(body);
        var delay := Delay(body);
        if location.None? then Failure(NoLocationMessage)
        else Success(trainNumber, location.value, delay)
  }

  /** No exception text makes the catch-all message equal one of the fixed ones. */
  lemma ErrorMessageDistinct(message: string)
    ensures ErrorPrefix + message != NotNumericMessage
    ensures ErrorPrefix + message != NotFoundMessage
    ensures ErrorPrefix + message != NoLocationMessage
    ensures ErrorPrefix + message != TimeoutMessage
  {
    assert (ErrorPrefix + message)[0] == 'A';
  }

  /**
   * Each failure message identifies exactly one way the lookup can end, and a
   * success happens exactly when the site answered 200 with a usable h4.
   */
  lemma LookupClassifies(trainNumber: string, fetched: Fetch)
    ensures Lookup(trainNumber, fetched) == Failure(TimeoutMessage) <==> fetched.TimedOut?
    ensures fetched.Raised? ==> Lookup(trainNumber, fetched) == Failure(ErrorPrefix + fetched.message)
    ensures Lookup(trainNumber, fetched) == Failure(NotFoundMessage) <==>
      fetched.Responded? && fetched.status != 200
    ensures Lookup(trainNumber, fetched) == Failure(NoLocationMessage) <==>
      fetched.Responded? && fetched.status == 200 && Location(fetched.body).None?
    ensures Lookup(trainNumber, fetched).Success? <==>
      fetched.Responded? && fetched.status == 200 && Location(fetched.body).Some?
  {
    if fetched.Raised? {
      ErrorMessageDistinct(fetched.message);
    }
  }

  /** The location is read from the first h4 only; a blank first h4 is a miss. */
  lemma LocationFromFirstHeading(body: seq<Element>, i: nat)
    requires i < |body| && body[i].tag == "h4"
    requires forall j :: 0 <= j < i ==> body[j].tag != "h4"
    ensures Location(body) == if Trim(body[i].text) == [] then None else Some(Trim(body[i].text))
  {
    FindFirst(body, LocationSelector, i);
  }

  /** h4 elements after the first one never affect the location. */
  lemma LaterHeadingsIgnored(pre: seq<Element>, heading: Element, post1: seq<Element>, post2: seq<Element>)
    requires forall j :: 0 <= j < |pre| ==> pre[j].tag != "h4"
    requires heading.tag == "h4"
    ensures Location(pre + [heading] + post1) == Location(pre + [heading] + post2)
  {
    FindIgnoresLater(pre, heading, post1, post2, LocationSelector);
  }

  /** A span of class "delay" takes precedence over every p of class "delay". */
  lemma DelayFromFirstSpan(body: seq<Element>, i: nat)
    requires i < |body| && Matches(DelaySpanSelector, body[i])
    requires forall j :: 0 <= j < i ==> !Matches(DelaySpanSelector, body[j])
    ensures Delay(body) == Some(Trim(body[i].text))
  {
    FindFirst(body, DelaySpanSelector, i);
  }

  /** Without such a span, the delay is the text of the first p of class "delay". */
  lemma DelayFromFirstParagraph(body: seq<Element>, i: nat)
    requires forall j :: 0 <= j < |body| ==> !Matches(DelaySpanSelector, body[j])
    requires i < |body| && Matches(DelayParagraphSelector, body[i])
    requires forall j :: 0 <= j < i ==> !Matches(DelayParagraphSelector, body[j])
    ensures Delay(body) == Some(Trim(body[i].text))
  {
    FindFirst(body, DelayParagraphSelector, i);
  }

  /**
   * A page whose first h4 has text is a success carrying the stripped text of
   * that h4 and the page's delay; a page whose first h4 is blank is a failure,
   * delay or not.
   */
  lemma LookupFirstHeading(trainNumber: string, status: int, body: seq<Element>, i: nat)
    requires status == 200
    requires i < |body| && body[i].tag == "h4"
    requires forall j :: 0 <= j < i ==> body[j].tag != "h4"
    ensures Trim(body[i].text) != [] ==>
      Lookup(trainNumber, Responded(status, body)) == Success(trainNumber, Trim(body[i].text), Delay(body))
    ensures Trim(body[i].text) == [] ==>
      Lookup(trainNumber, Responded(status, body)) == Failure(NoLocationMessage)
  {
    LocationFromFirstHeading(body, i);
  }

  /**
   * What the form handler of index produces: the result it renders, and the
   * train numbers it handed to the lookup, in order.
   */
  datatype Handled = Handled(result: LookupResult, lookups: seq<string>)

  /**
   * index on a submission: strip the field, reject anything that is not all
   * digits, otherwise look the stripped number up. upstream gives the fetch
   * outcome for each train number.
   */
  function Submit(formValue: string, upstream: string -> Fetch): (h: Handled)
    ensures |h.lookups| <= 1
    ensures h.lookups != [] ==> IsDigits(h.lookups[0]) && h.lookups[0] == Trim(formValue)
    ensures h.result.Success? ==> h.lookups == [h.result.trainNumber]
  {
    var trainNumber := Trim(formValue);
    if !IsDigits(trainNumber) then
      Handled(Failure(NotNumericMessage), [])
    else
      Handled(Lookup(trainNumber, upstream(trainNumber)), [trainNumber])
  }

  /** A lookup never produces the validation message. */
  lemma LookupNeverNotNumeric(trainNumber: string, fetched: Fetch)
    ensures Lookup(trainNumber, fetched) != Failure(NotNumericMessage)
  {
    if fetched.Raised? {
      ErrorMessageDistinct(fetched.message);
    }
  }

  /**
   * The submission is rejected with the validation message exactly when the
   * stripped value is not all digits, and exactly then no lookup is made.
   */
  lemma SubmitRejectsNonNumeric(formValue: string, upstream: string -> Fetch)
    ensures Submit(formValue, upstream).result == Failure(NotNumericMessage) <==> !IsDigits(Trim(formValue))
    ensures Submit(formValue, upstream).lookups == [] <==> !IsDigits(Trim(formValue))
  {
    var t := Trim(formValue);
    if IsDigits(t) {
      LookupNeverNotNumeric(t, upstream(t));
    }
  }

  /** A rejected submission does not depend on anything the site could answer. */
  lemma RejectionIgnoresUpstream(formValue: string, upstream1: string -> Fetch, upstream2: string -> Fetch)
    requires !IsDigits(Trim(formValue))
    ensures Submit(formValue, upstream1) == Submit(formValue, upstream2) == Handled(Failure(NotNumericMessage), [])
  {
  }

  /** A numeric submission is looked up once, and its result is passed on unchanged. */
  lemma SubmitForwardsLookup(formValue: string, upstream: string -> Fetch)
    requires IsDigits(Trim(formValue))
    ensures Submit(formValue, upstream).lookups == [Trim(formValue)]
    ensures Submit(formValue, upstream).result == Lookup(Trim(formValue), upstream(Trim(formValue)))
  {
  }

  /** Whitespace around the submitted value changes nothing. */
  lemma SubmitIgnoresPadding(a: string, formValue: string, b: string, upstream: string -> Fetch)
    requires AllSpace(a) && AllSpace(b)
    ensures Submit(a + formValue + b, upstream) == Submit(formValue, upstream)
  {
    TrimIgnoresPadding(a, formValue, b);
  }

  /** A page that is only <h4>Dhaka Junction</h4> gives that location and no delay. */
  lemma HeadingOnlyPage(trainNumber: string)
    ensures Lookup(trainNumber, Responded(200, [Element("h4", {}, "Dhaka Junction")]))
         == Success(trainNumber, "Dhaka Junction", None)
  {
    var body := [Element("h4", {}, "Dhaka Junction")];
    TrimUnique("Dhaka Junction", 0, 14);
    LocationFromFirstHeading(body, 0);
  }

  /** <h4> Chittagong </h4><span class="delay">15 min</span>: both fields are stripped. */
  lemma HeadingAndDelayPage(trainNumber: string)
    ensures Lookup(trainNumber, Responded(200, [Element("h4", {}, " Chittagong "), Element("span", {"delay"}, "15 min")]))
         == Success(trainNumber, "Chittagong", Some("15 min"))
  {
    var body := [Element("h4", {}, " Chittagong "), Element("span", {"delay"}, "15 min")];
    PaddedNameTrims();
    LookupFirstHeading(trainNumber, 200, body, 0);
    DelayFromFirstSpan(body, 1);
  }

  lemma PaddedNameTrims()
    ensures Trim(" Chittagong ") == "Chittagong"
    ensures Trim("15 min") == "15 min"
  {
    TrimUnique(" Chittagong ", 1, 11);
    assert " Chittagong "[1..11] == "Chittagong";
    TrimUnique("15 min", 0, 6);
    assert "15 min"[0..6] == "15 min";
  }

  /** A delay without any h4 is still a location failure. */
  lemma DelayWithoutHeadingPage(trainNumber: string)
    ensures Lookup(trainNumber, Responded(200, [Element("span", {"delay"}, "15 min")]))
         == Failure(NoLocationMessage)
  {
  }
}
