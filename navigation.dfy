/**
  The navigation-intent detector shared by both implementations
  (`checkAccountPageRequest`, `check_account_page_request`): three keyword lists tested
  as substrings of the lower-cased message, booking before account before profile.
*/
module Navigation {

  import opened Wrappers
  import opened Text

  datatype PageKind = BookingPage | AccountPage | ProfilePage

  /** The `{type, url, displayText}` record the detector returns. */
  datatype PageLink = PageLink(kind: PageKind, url: string, displayText: string)

  const BookingKeywords: seq<string> := ["booking", "bookings", "my booking", "my bookings", "booking page"]
  const AccountKeywords: seq<string> := ["account", "accounts", "statement", "account page", "statement page"]
  const ProfileKeywords: seq<string> := ["profile", "my profile", "profile page"]

  const AccountsBase := "https://www.codemagen.net/myaccounts/"

  /** The fixed link of each kind of page. */
  function PageOf(kind: PageKind): (p: PageLink)
    ensures p.kind == kind && |p.url| > |AccountsBase| && p.url[..|AccountsBase|] == AccountsBase
  {
    match kind
    case BookingPage => PageLink(kind, AccountsBase + "bookings", "My Bookings")
    case AccountPage => PageLink(kind, AccountsBase + "accounts", "Account Statement")
    case ProfilePage => PageLink(kind, AccountsBase + "profile", "My Profile")
  }

  /** `keywords.some(k => lower.includes(k))` / `any(k in lower for k in keywords)`. */
  predicate MentionsAny(lower: string, keywords: seq<string>) {
    exists k <- keywords :: Contains(lower, k)
  }

  /** The detector: the first list with a keyword in the lower-cased message decides the page. */
  function AccountPageRequest(message: string): Option<PageLink> {
    var lower := Lower(message);
    if MentionsAny(lower, BookingKeywords) then Some(PageOf(BookingPage))
    else if MentionsAny(lower, AccountKeywords) then Some(PageOf(AccountPage))
    else if MentionsAny(lower, ProfileKeywords) then Some(PageOf(ProfilePage))
    else None
  }

  /**
    Each list is as good as its shortest words: every longer keyword contains "booking",
    "account" or "statement", or "profile", so only those decide.
  */
  lemma KeywordRoots(lower: string)
    ensures MentionsAny(lower, BookingKeywords) <==> Contains(lower, "booking")
    ensures MentionsAny(lower, AccountKeywords) <==> Contains(lower, "account") || Contains(lower, "statement")
    ensures MentionsAny(lower, ProfileKeywords) <==> Contains(lower, "profile")
  {
    hide Contains;
    BookingRoots(lower);
    AccountRoots(lower);
    ProfileRoots(lower);
  }

  lemma BookingRoots(lower: string)
    ensures MentionsAny(lower, BookingKeywords) <==> MentionsAny(lower, ["booking"])
  {
    hide Contains, MentionsAny;
    assert OccursAt("my booking", "booking", 3) && OccursAt("my bookings", "booking", 3);
    assert OccursAt("bookings", "booking", 0) && OccursAt("booking page", "booking", 0);
    RootsDecide(lower, BookingKeywords, ["booking"], [0, 0, 0, 0, 0], [0, 0, 3, 3, 0]);
  }

  lemma AccountRoots(lower: string)
    ensures MentionsAny(lower, AccountKeywords) <==> MentionsAny(lower, ["account", "statement"])
  {
    hide Contains, MentionsAny;
    assert OccursAt("accounts", "account", 0) && OccursAt("account page", "account", 0);
    assert OccursAt("statement page", "statement", 0);
    RootsDecide(lower, AccountKeywords, ["account", "statement"], [0, 0, 1, 0, 1], [0, 0, 0, 0, 0]);
  }

  lemma ProfileRoots(lower: string)
    ensures MentionsAny(lower, ProfileKeywords) <==> MentionsAny(lower, ["profile"])
  {
    hide Contains, MentionsAny;
    assert OccursAt("my profile", "profile", 3) && OccursAt("profile page", "profile", 0);
    RootsDecide(lower, ProfileKeywords, ["profile"], [0, 0, 0], [0, 3, 0]);
  }

  /**
    When the `k`-th keyword holds root `rootOf[k]` at offset `at[k]`, and every root is
    itself a keyword, the list and the roots decide alike.
  */
  lemma RootsDecide(lower: string, keywords: seq<string>, roots: seq<string>, rootOf: seq<nat>, at: seq<nat>)
    requires |rootOf| == |at| == |keywords|
    requires forall r <- roots :: r in keywords
    requires forall k | 0 <= k < |keywords| :: rootOf[k] < |roots| && OccursAt(keywords[k], roots[rootOf[k]], at[k])
    ensures MentionsAny(lower, keywords) <==> MentionsAny(lower, roots)
  {
    if MentionsAny(lower, keywords) {
      var k :| 0 <= k < |keywords| && Contains(lower, keywords[k]);
      var r := roots[rootOf[k]];
      ContainsWitness(keywords[k], r, at[k]);
      ContainsTransitive(lower, keywords[k], r);
    }
  }

  /**
    The detector's answer in terms of the root words: booking wins over everything, account
    or statement over profile, and no root word means no page.
  */
  lemma PagePriority(message: string)
    ensures var lower := Lower(message); var r := AccountPageRequest(message);
      (r == Some(PageOf(BookingPage)) <==> Contains(lower, "booking"))
      && (r == Some(PageOf(AccountPage)) <==>
            !Contains(lower, "booking") && (Contains(lower, "account") || Contains(lower, "statement")))
      && (r == Some(PageOf(ProfilePage)) <==>
            !Contains(lower, "booking") && !Contains(lower, "account") && !Contains(lower, "statement")
            && Contains(lower, "profile"))
      && (r.None? <==>
            !Contains(lower, "booking") && !Contains(lower, "account") && !Contains(lower, "statement")
            && !Contains(lower, "profile"))
  {
    KeywordRoots(Lower(message));
  }

  /** The detector does not see letter case. */
  lemma DetectionIgnoresCase(message: string)
    ensures AccountPageRequest(Upper(message)) == AccountPageRequest(message)
  {
    CaseMappingsAbsorb(message);
  }
}
