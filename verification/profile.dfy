/**
 * The profile page: the avatar initials, the redirect of signed-out
 * visitors, and the state updates of the trip-history fetch.
 */
module Profile {
  import opened Wrappers
  import opened Text
  import opened AuthContext

  /** `n[0]` joined as text: the first character, or nothing for an empty piece. */
  function Head(p: string): (r: string)
    ensures p == [] ==> r == []
    ensures p != [] ==> r == [p[0]]
  {
    if p == [] then [] else [p[0]]
  }

  /** The first characters of all pieces, joined. */
  function Heads(parts: seq<string>): (r: string)
    ensures |r| <= |parts|
    decreases |parts|
  {
    if parts == [] then [] else Head(parts[0]) + Heads(parts[1..])
  }

  /**
   * Reference definition of the same text: each non-space character that
   * begins the string or follows a space. `atStart` says whether the
   * previous character was a space (or there was none).
   */
  function WordStarts(s: string, atStart: bool): (r: string)
    ensures |r| <= |s|
    ensures forall i :: 0 <= i < |r| ==> r[i] in s && r[i] != ' '
    decreases |s|
  {
    if s == [] then []
    else (if atStart && s[0] != ' ' then [s[0]] else []) + WordStarts(s[1..], s[0] == ' ')
  }

  /** `substring(0, 2)`. */
  function Prefix2(s: string): (r: string)
    ensures |r| <= 2 && r <= s
    ensures |s| >= 2 ==> |r| == 2
  {
    if |s| <= 2 then s else s[..2]
  }

  /** The first characters of the space-separated pieces are the word starts. */
  lemma {:induction false} HeadsOfSplit(s: string)
    ensures Heads(Split(s, ' ')) == WordStarts(s, true)
    ensures Heads(Split(s, ' ')[1..]) == WordStarts(s, false)
    decreases |s|
  {
    if s != [] {
      var rest := Split(s[1..], ' ');
      HeadsOfSplit(s[1..]);
      if s[0] == ' ' {
        assert Split(s, ' ') == [""] + rest;
        assert ([""] + rest)[1..] == rest;
      } else {
        var parts := [[s[0]] + rest[0]] + rest[1..];
        assert Split(s, ' ') == parts;
        assert parts[1..] == rest[1..];
        assert Heads(parts) == [s[0]] + Heads(rest[1..]);
      }
    }
  }

  /**
   * The avatar fallback text: "U" without a display name, otherwise the
   * first two word starts of the name, upper-cased.
   */
  function Initials(displayName: Option<string>): (r: string)
    ensures |r| <= 2
    ensures !Truthy(displayName) ==> r == "U"
    ensures Truthy(displayName) ==> r == ToUpper(Prefix2(WordStarts(displayName.value, true)))
  {
    if Truthy(displayName) then
      HeadsOfSplit(displayName.value);
      ToUpper(Prefix2(Heads(Split(displayName.value, ' '))))
    else "U"
  }

  /** A name of spaces only is truthy yet yields empty initials, not "U". */
  lemma {:induction false} BlankNameHasNoInitials(name: string)
    requires name != []
    requires forall i :: 0 <= i < |name| ==> name[i] == ' '
    ensures Initials(Some(name)) == ""
  {
  }

  /** Every initial is an upper-cased character of the name that starts a word. */
  lemma InitialsComeFromWordStarts(name: string)
    requires name != []
    ensures forall i :: 0 <= i < |Initials(Some(name))| ==>
      exists j :: IsWordStart(name, j) && Initials(Some(name))[i] == UpperChar(name[j])
  {
    var w := WordStarts(name, true);
    var r := Initials(Some(name));
    forall i | 0 <= i < |r|
      ensures exists j :: IsWordStart(name, j) && r[i] == UpperChar(name[j])
    {
      assert r[i] == UpperChar(Prefix2(w)[i]) == UpperChar(w[i]);
      var j := WordStartIndex(name, true, i);
      assert IsWordStart(name, j);
    }
  }

  /** Position `j` of `s` holds a non-space character at the front or after a space. */
  predicate IsWordStart(s: string, j: int) {
    0 <= j < |s| && s[j] != ' ' && (j == 0 || s[j - 1] == ' ')
  }

  /** Where the `k`-th word start of `s` sits. */
  lemma {:induction false} WordStartIndex(s: string, atStart: bool, k: nat) returns (j: nat)
    requires k < |WordStarts(s, atStart)|
    ensures j < |s| && s[j] != ' ' && (if j == 0 then atStart else s[j - 1] == ' ')
    ensures WordStarts(s, atStart)[k] == s[j]
    decreases |s|
  {
    var here := if atStart && s[0] != ' ' then [s[0]] else [];
    if here != [] && k == 0 {
      j := 0;
    } else {
      var k' := k - |here|;
      var j' := WordStartIndex(s[1..], s[0] == ' ', k');
      j := j' + 1;
    }
  }

  /** The rendered screen: a spinner while loading or signed out, otherwise the profile. */
  datatype Screen = Spinner | ProfileCard(user: User)

  function ScreenOf(loading: bool, user: Option<User>): (r: Screen)
    ensures r.ProfileCard? <==> !loading && user.Some?
  {
    if loading || user.None? then Spinner else ProfileCard(user.value)
  }

  const LoginPath := "/login"

  /** The redirect effect: to the login page exactly when loading is over and nobody is signed in. */
  function RedirectTarget(loading: bool, user: Option<User>): (r: Option<string>)
    ensures r.Some? <==> !loading && user.None?
    ensures r.Some? ==> r.value == LoginPath && ScreenOf(loading, user) == Spinner
  {
    if !loading && user.None? then Some(LoginPath) else None
  }

  /** The redirect never fires while the profile itself is shown. */
  lemma ProfileShownOnlyWithoutRedirect(loading: bool, user: Option<User>)
    ensures ScreenOf(loading, user).ProfileCard? ==> RedirectTarget(loading, user).None?
    ensures RedirectTarget(loading, user).Some? ==> user.None?
  {
  }

  datatype PlanSummary = PlanSummary(totalTime: string, estimatedCost: Option<string>, summary: string)
  datatype TripHistoryItem = TripHistoryItem(id: string, origin: string, destination: string, date: string, plan: PlanSummary)

  /** How the trip-history request ended. */
  datatype TripsResponse = Threw | Responded(success: bool, data: seq<TripHistoryItem>)

  datatype TripsState = TripsState(trips: seq<TripHistoryItem>, loadingTrips: bool)

  const InitialTrips := TripsState([], true)

  /** The trip fetch runs exactly when somebody is signed in. */
  predicate ShouldFetchTrips(user: Option<User>) {
    user.Some?
  }

  /** `fetchTrips`: adopt the data only from a successful response; stop loading in every case. */
  function FetchTrips(st: TripsState, response: TripsResponse): (r: TripsState)
    ensures !r.loadingTrips
    ensures r.trips != st.trips ==> response.Responded? && response.success
    ensures response.Responded? && response.success ==> r.trips == response.data
  {
    match response
    case Responded(true, data) => TripsState(data, false)
    case _ => st.(loadingTrips := false)
  }

  /** A failed or thrown fetch keeps whatever list was there and only ends loading. */
  lemma FailedFetchKeepsTrips(st: TripsState, response: TripsResponse)
    requires !(response.Responded? && response.success)
    ensures FetchTrips(st, response) == st.(loadingTrips := false)
  {
  }
}
