/**
 * The shared page script app.js: the login test on `localStorage`, logout,
 * the job-card click that remembers where to go after signing in, the job
 * grid filled by `loadJobs` and `searchJobs`, and the labels of the
 * statistics counters.
 */
module App {
  import opened Wrappers
  import opened Text
  import opened Boundary
  import opened Storage

  const LoggedOutMessage := "Logged out successfully!"
  const LoginFirstMessage := "Please login to apply for this job"
  const ApplicationPage := "job-application-form.html"
  const LoginPage := "login.html"
  const SelectedJobKey := "selectedJob"
  const HomeLimit := 6
  const BackendDownMessage := "❌ Backend server is not running! Start it with: cd backend && npm run dev"
  const SearchFailedMessage := "Search failed"

  /** The keys `logout` removes, one `removeItem` each. */
  const AuthKeys: set<string> := {"isLoggedIn", "token", "username", "userEmail", "userId"}

  /** `getItem(key)` on a snapshot of the store. */
  function Lookup(items: map<string, string>, key: string): Option<string>
  {
    if key in items then Some(items[key]) else None
  }

  /** `isLoggedIn()`: the flag reads exactly `"true"` and a non-empty token is stored. */
  function IsLoggedIn(items: map<string, string>): (r: bool)
    ensures r <==> "isLoggedIn" in items && items["isLoggedIn"] == "true" && "token" in items && items["token"] != []
  {
    Lookup(items, "isLoggedIn") == Some("true") && Truthy(Lookup(items, "token"))
  }

  /**
   * `logout()`: the logout endpoint is called only when a token is stored,
   * and whatever it answers, the five auth keys are removed, a toast shown
   * and a reload scheduled.
   */
  method Logout(store: LocalStorage) returns (calledApi: bool, toast: Toast)
    modifies store
    ensures calledApi <==> Truthy(Lookup(old(store.items), "token"))
    ensures store.items == old(store.items) - AuthKeys
    ensures toast == Toast(LoggedOutMessage, Success)
  {
    calledApi := Truthy(store.GetItem("token"));
    store.RemoveItem("isLoggedIn");
    store.RemoveItem("token");
    store.RemoveItem("username");
    store.RemoveItem("userEmail");
    store.RemoveItem("userId");
    toast := Toast(LoggedOutMessage, Success);
  }

  /** The store after a card click: the job remembered, and the way back from the login page when needed. */
  function AfterCardClick(items: map<string, string>, jobJson: string): (r: map<string, string>)
  {
    var chosen := items[SelectedJobKey := jobJson];
    if IsLoggedIn(chosen) then chosen else chosen[RedirectKey := ApplicationPage]
  }

  /**
   * A click always stores the job; a logged-out visitor also gets
   * `redirectAfterLogin` pointing at the application form, while a logged-in
   * one keeps whatever it held; no other key changes.
   */
  lemma CardClickEffect(items: map<string, string>, jobJson: string)
    ensures var r := AfterCardClick(items, jobJson);
      && SelectedJobKey in r && r[SelectedJobKey] == jobJson
      && (!IsLoggedIn(items) ==> RedirectKey in r && r[RedirectKey] == ApplicationPage)
      && (IsLoggedIn(items) ==> Lookup(r, RedirectKey) == Lookup(items, RedirectKey))
      && IsLoggedIn(r) == IsLoggedIn(items)
      && forall k :: k != SelectedJobKey && k != RedirectKey ==> Lookup(r, k) == Lookup(items, k)
  {
    var chosen := items[SelectedJobKey := jobJson];
    assert Lookup(chosen, "isLoggedIn") == Lookup(items, "isLoggedIn");
    assert Lookup(chosen, "token") == Lookup(items, "token");
  }

  /** `handleJobCardClick(job)`: where the page goes next and the toast shown on the way. */
  method HandleJobCardClick(store: LocalStorage, jobJson: string) returns (target: string, toast: Option<Toast>)
    modifies store
    ensures store.items == AfterCardClick(old(store.items), jobJson)
    ensures IsLoggedIn(old(store.items)) ==> target == ApplicationPage && toast == None
    ensures !IsLoggedIn(old(store.items)) ==> target == LoginPage && toast == Some(Toast(LoginFirstMessage, Info))
  {
    CardClickEffect(store.items, jobJson);
    store.SetItem(SelectedJobKey, jobJson);
    if IsLoggedIn(store.items) {
      target, toast := ApplicationPage, None;
    } else {
      toast := Some(Toast(LoginFirstMessage, Info));
      store.SetItem(RedirectKey, ApplicationPage);
      target := LoginPage;
    }
  }

  // ---------------------------------------------------------------- the job grid

  /** `currentPage.endsWith('index.html') || currentPage.endsWith('/')`. */
  predicate IsHomePage(path: string)
  {
    EndsWith(path, "index.html") || EndsWith(path, "/")
  }

  /** The jobs given cards: the first six on the home page, all of them elsewhere. */
  function DisplayedJobs(jobs: seq<Job>, home: bool): (r: seq<Job>)
  {
    if home && |jobs| > HomeLimit then jobs[..HomeLimit] else jobs
  }

  /** The home page shows the first min(6, n) jobs in their order; other pages show them all. */
  lemma DisplayedJobsPrefix(jobs: seq<Job>, home: bool)
    ensures var r := DisplayedJobs(jobs, home);
      && |r| == (if home && |jobs| > HomeLimit then HomeLimit else |jobs|)
      && r == jobs[..|r|]
      && (!home ==> r == jobs)
  {
  }

  /** What the `#jobGrid` element holds. */
  datatype Grid = Loading | Searching | Cards(jobs: seq<Job>) | NoJobs | NoMatch(keyword: string)
                | LoadFailed(reason: string) | SearchFailed

  /** What `searchJobs(keyword)` does first. */
  datatype SearchStep = ReloadAll | Query(keyword: string)

  /** An empty or white-space keyword falls back to `loadJobs()`; any other is sent untrimmed. */
  function SearchAction(keyword: string): (r: SearchStep)
    ensures r == ReloadAll <==> forall k :: 0 <= k < |keyword| ==> IsSpace(keyword[k])
    ensures r.Query? ==> r.keyword == keyword
  {
    BlankIffAllSpace(keyword);
    if keyword == [] || Blank(keyword) then ReloadAll else Query(keyword)
  }

  /** The toast of a failed `loadJobs`, chosen by whether the error mentions `fetch`. */
  function LoadErrorText(reason: string): (r: string)
  {
    if Contains(reason, "fetch") then BackendDownMessage else "❌ Error: " + reason
  }

  /**
   * An error whose message mentions `fetch` anywhere gets the backend-down
   * toast, and every other error has its own message shown after `Error:`.
   */
  lemma FetchErrorNamed(reason: string)
    ensures (exists p, q :: reason == p + "fetch" + q) ==> LoadErrorText(reason) == BackendDownMessage
    ensures !(exists p, q :: reason == p + "fetch" + q) ==> LoadErrorText(reason) == "❌ Error: " + reason
  {
    ContainsIffInfix(reason, "fetch");
  }

  /** The jobs page: the last list `loadJobs` fetched and the grid on screen. */
  class JobBoard {
    var jobs: seq<Job>
    var grid: Grid

    constructor ()
      ensures jobs == [] && grid == Loading
    {
      jobs := [];
      grid := Loading;
    }

    /** `loadJobs()` up to its request: the loading placeholder. */
    method BeginLoad()
      modifies this`grid
      ensures grid == Loading
    {
      grid := Loading;
    }

    /**
     * `searchJobs(keyword)` up to its request: a blank keyword reloads all
     * jobs instead, any other puts up the searching placeholder.
     */
    method BeginSearch(keyword: string) returns (step: SearchStep)
      modifies this`grid
      ensures step == SearchAction(keyword)
      ensures grid == if step == ReloadAll then Loading else Searching
    {
      step := SearchAction(keyword);
      if step == ReloadAll {
        BeginLoad();
      } else {
        grid := Searching;
      }
    }

    /**
     * The jobs request of `loadJobs()` settles on page `path`. A successful
     * reply with a list replaces `jobs` and shows the page's share of it; an
     * unsuccessful one leaves the loading placeholder; a thrown error shows
     * the error panel and a toast.
     */
    method CompleteLoad(path: string, reply: Reply<Option<seq<Job>>>) returns (toast: Option<Toast>)
      modifies this
      ensures reply.Succeeded() && reply.data.Some? ==>
        && jobs == reply.data.value && toast == None
        && grid == (if DisplayedJobs(jobs, IsHomePage(path)) == [] then NoJobs
                    else Cards(DisplayedJobs(jobs, IsHomePage(path))))
      ensures reply.Answered? && !(reply.success && reply.data.Some?) ==>
        jobs == old(jobs) && grid == old(grid) && toast == None
      ensures reply.Thrown? ==>
        && jobs == old(jobs) && grid == LoadFailed(reply.reason)
        && toast == Some(Toast(LoadErrorText(reply.reason), Error))
    {
      toast := None;
      match reply
      case Answered(success, _, _, data) =>
        if success && data.Some? {
          jobs := data.value;
          var shown := DisplayedJobs(jobs, IsHomePage(path));
          grid := if shown == [] then NoJobs else Cards(shown);
        }
      case Thrown(reason) =>
        grid := LoadFailed(reason);
        toast := Some(Toast(LoadErrorText(reason), Error));
    }

    /**
     * The request of `searchJobs(keyword)` for a non-blank keyword settles.
     * The matches are shown but never stored in `jobs`.
     */
    method CompleteSearch(keyword: string, reply: Reply<Option<seq<Job>>>) returns (toast: Option<Toast>)
      modifies this`grid
      ensures reply.Succeeded() && reply.data.Some? ==>
        toast == None && grid == (if reply.data.value == [] then NoMatch(keyword) else Cards(reply.data.value))
      ensures reply.Answered? && !(reply.success && reply.data.Some?) ==> grid == old(grid) && toast == None
      ensures reply.Thrown? ==> grid == SearchFailed && toast == Some(Toast(SearchFailedMessage, Error))
    {
      toast := None;
      match reply
      case Answered(success, _, _, data) =>
        if success && data.Some? {
          grid := if data.value == [] then NoMatch(keyword) else Cards(data.value);
        }
      case Thrown(_) =>
        grid := SearchFailed;
        toast := Some(Toast(SearchFailedMessage, Error));
    }
  }

  // ---------------------------------------------------------------- counters

  /** The label of a counter mid-animation, for the floored display value `v`. */
  function IntermediateCounterLabel(v: nat, suffix: string): string
  {
    if v >= 1000 then DecimalString(v / 1000) + "K" + suffix else DecimalString(v) + suffix
  }

  /**
   * The label is a numeral, a `K` exactly for values of a thousand and more,
   * then the suffix; the numeral reads back as the value in thousands (rounded
   * down) or, below a thousand, as the value itself in at most three digits.
   */
  lemma IntermediateLabelReadsBack(v: nat, suffix: string)
    ensures exists digits ::
      && AllDigits(digits) && 1 <= |digits|
      && (v >= 1000 ==> IntermediateCounterLabel(v, suffix) == digits + "K" + suffix && DecimalValue(digits) == v / 1000)
      && (v < 1000 ==> IntermediateCounterLabel(v, suffix) == digits + suffix && DecimalValue(digits) == v && |digits| <= 3)
  {
    if v >= 1000 {
      DecimalRoundTrip(v / 1000);
      var digits := DecimalString(v / 1000);
      assert IntermediateCounterLabel(v, suffix) == digits + "K" + suffix;
    } else {
      DecimalRoundTrip(v);
      DecimalBelowThousand(v);
      var digits := DecimalString(v);
      assert IntermediateCounterLabel(v, suffix) == digits + suffix;
    }
  }

  /** The label once the animation reaches `target`, with the branches in the order app.js:288-296 tests them. */
  function FinalCounterLabel(target: int, suffix: string): string
  {
    if target >= 10000 then "10K+"
    else if target >= 5000 then "5K+"
    else if target >= 50000 then "50K+"
    else IntString(target) + suffix
  }

  /** The `50K+` branch is tested after `>= 10000` has caught every target it could apply to. */
  lemma FiftyKUnreachable(target: int, suffix: string)
    requires target >= 50000
    ensures FinalCounterLabel(target, suffix) == "10K+"
  {
  }

  /** With the largest threshold tested first, as the three bands are evidently meant. */
  function FinalCounterLabelIntended(target: int, suffix: string): string
  {
    if target >= 50000 then "50K+"
    else if target >= 10000 then "10K+"
    else if target >= 5000 then "5K+"
    else IntString(target) + suffix
  }

  /**
   * The corrected label gives each band its own text, the largest first, and
   * agrees with the label as written on every target below 50000.
   */
  lemma FinalCounterLabelBands(target: int, suffix: string)
    ensures var r := FinalCounterLabelIntended(target, suffix);
      && (target >= 50000 ==> r == "50K+")
      && (10000 <= target < 50000 ==> r == "10K+")
      && (5000 <= target < 10000 ==> r == "5K+")
      && (target < 5000 ==> r == IntString(target) + suffix)
      && (target < 50000 ==> r == FinalCounterLabel(target, suffix))
  {
  }

  /** A concrete target on which the two disagree. */
  lemma FiftyKCounterexample()
    ensures FinalCounterLabel(60000, "+") == "10K+"
    ensures FinalCounterLabelIntended(60000, "+") == "50K+"
  {
  }
}
