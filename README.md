# Bangladesh train tracker: lookup and classification model

The tracker is a one-page Flask form. A user submits a train number; the
handler strips it, rejects anything that is not all digits, and otherwise asks
a third-party tracking site for the train's live page. The page is scraped for
a location (the first `h4`) and an optional delay (a `span` or `p` of class
`delay`), and the outcome is shown as a success record or an error line.

This project models the only decision logic there is, in `app.py`:

- `get_train_location` becomes `Tracker.Lookup`. The network call is replaced
  by its outcome (`Fetch`): a timeout, another exception with its text, or a
  response with a status code and a page. The page is given as its elements in
  document order (`Markup.Element`: tag, class set, text).
- The submission branch of `index` becomes `Tracker.Submit`. The upstream site
  is a parameter `upstream: string -> Fetch`. The result records the render
  result and the train numbers handed to the lookup, so that "not called" and
  "called once" can be stated.
- `soup.find(name, class_=...)` becomes `Markup.Find`, the first matching
  element in document order; `str.strip` and `str.isdigit` become
  `Text.Trim` and `Text.IsDigits`.

Modules: `Wrappers` (Option), `Text` (whitespace, digits, stripping),
`Markup` (elements and first-match search), `Tracker` (lookup and form
handler).

Precedence in the scraping code:

- The delay is the first `span.delay` anywhere on the page. A `p.delay` is
  looked at only when there is no such span, so an earlier `p.delay` does
  not win (app.py:84).
- A BeautifulSoup tag counts as true even when its text is empty. So a found
  `span.delay` with blank text gives the delay `Some("")` and stops the
  fallback to `p` (app.py:84-87).
- The location comes from the first `h4` only. No other tag is tried
  (app.py:79).

Determinism holds by construction: `Lookup` and `Submit` are functions of
their arguments, and no state is kept between calls.

## Model

| member | source | states |
|---|---|---|
| `Text.Trim` | app.py:80-81 | the stripped text is empty exactly when the input is all whitespace, and otherwise starts and ends with a non-space character |
| `Text.TrimStripped` | app.py:80-81 | the stripped text is the core of a split of the input into leading whitespace, core and trailing whitespace |
| `Text.TrimUnique` | app.py:80-81 | every such split has the same core, and that core is what `Trim` returns, so `Trim` is exactly `str.strip` on ASCII |
| `Text.TrimIdempotent` | app.py:80-81 | stripping a stripped string changes nothing |
| `Text.TrimIgnoresPadding` | app.py:107 | whitespace added on both sides of a string does not change what it strips to |
| `Text.IsDigits` | app.py:108 | holds exactly when the string is non-empty and every character is `0`-`9` |
| `Markup.Matches` | app.py:79 | the tag name is equal, and the class, when one is given, is in the element's class set |
| `Markup.Find` | app.py:79 | the search finds nothing exactly when no element matches, and a found element is on the page and matches |
| `Markup.FindFirst` | app.py:79 | the search returns the element at the first matching position in document order |
| `Markup.FindIgnoresLater` | app.py:84 | elements after the first match never change what the search returns |
| `Tracker.Location` | app.py:78-81 | a found location is non-empty with no surrounding whitespace, and a page without `h4` has no location |
| `Tracker.Delay` | app.py:83-87 | the delay is absent exactly when the page has neither a `span.delay` nor a `p.delay` |
| `Tracker.Lookup` | app.py:64-101 | a success carries the train number passed in, unchanged, and a non-empty location with no surrounding whitespace |
| `Tracker.ErrorMessageDistinct` | app.py:98-101 | the catch-all message `An error occurred: <text>` never equals one of the fixed messages, whatever the exception text |
| `Tracker.LookupClassifies` | app.py:64-101 | timeout message iff the fetch timed out; not-found message iff a non-200 status, whatever the page; location message iff status 200 with no usable `h4`, delay or not; success iff status 200 with a usable `h4`; another exception gives the prefixed message |
| `Tracker.LocationFromFirstHeading` | app.py:79-81 | the location is the stripped text of the first `h4`, and is absent when that text is blank |
| `Tracker.LaterHeadingsIgnored` | app.py:79 | `h4` elements after the first never affect the location |
| `Tracker.DelayFromFirstSpan` | app.py:84-87 | the first `span.delay` gives the delay, stripped, whatever `p.delay` elements the page has, and blank text gives an empty delay |
| `Tracker.DelayFromFirstParagraph` | app.py:84-87 | with no `span.delay`, the first `p.delay` gives the delay, stripped |
| `Tracker.LookupFirstHeading` | app.py:79-96 | with status 200, a first `h4` with text gives a success with that stripped text and the page's delay; a blank first `h4` gives the location failure even when a delay is present |
| `Tracker.Submit` | app.py:105-111 | at most one lookup is made, and only with the stripped submission, which is then all digits; a success reports the train number that was looked up, so an all-digit one |
| `Tracker.LookupNeverNotNumeric` | app.py:108-111 | no lookup outcome equals the validation message, so that message always means the lookup was skipped |
| `Tracker.SubmitRejectsNonNumeric` | app.py:107-109 | the result is the validation message exactly when the stripped submission is empty or has a non-digit, and exactly then no lookup is made |
| `Tracker.RejectionIgnoresUpstream` | app.py:108-109 | a rejected submission gives the same result whatever the site would answer |
| `Tracker.SubmitForwardsLookup` | app.py:110-111 | an all-digit submission is looked up exactly once, with its stripped text, and the lookup result is returned unchanged |
| `Tracker.SubmitIgnoresPadding` | app.py:107 | whitespace around the submitted value does not change the outcome |
| `Tracker.HeadingOnlyPage` | app.py:79-96 | a page `<h4>Dhaka Junction</h4>` gives location `Dhaka Junction` and no delay |
| `Tracker.HeadingAndDelayPage` | app.py:79-96 | `<h4> Chittagong </h4><span class="delay">15 min</span>` gives location `Chittagong` and delay `15 min`, both stripped |
| `Tracker.DelayWithoutHeadingPage` | app.py:89-90 | a page with a delay but no `h4` gives the location failure |

## Left out

- The outbound GET, the URL built from the train number and the 7-second timeout (app.py:66-67) are network I/O. They appear only as the `Fetch` outcome.
- HTML parsing by BeautifulSoup (app.py:71) is a foreign library. The page is given as its element sequence; tokenisation and how an element's descendant text is gathered are not modelled.
- Exceptions raised while parsing or reading the page are folded into the `Raised` outcome, since parsing itself is not modelled.
- Flask routing, the form object, the GET branch that renders no result, `render_template_string` and the HTML template (app.py:1-62, 103-104, 112) are web framework and UI.
- A missing form field (app.py:107) crashes the handler. The model takes the field as a string, so that case cannot arise.
- Process startup and debug mode (app.py:114-115) are deployment.
- Text.Trim and Text.IsDigits: follow Python's rules on ASCII only. Whitespace is the space and character codes 9-13 and 28-31; digits are `0`-`9`. Python also accepts other Unicode whitespace and digits, for example `'²'.isdigit()` is true.
- Markup.Find: a class filter matches when the class is one of the element's classes. BeautifulSoup's match against the whole class string is not modelled.
