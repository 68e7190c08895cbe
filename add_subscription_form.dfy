/**
 * The add-subscription form (frontend/src/components/AddSubscription.jsx):
 * two input fields, and a submit handler that checks the trimmed name and
 * URL, hands the accepted pair to the app's `addSubscription`, and clears
 * both fields. The alerts shown on rejection are the reasons below.
 */
module AddSubscriptionForm {
  import opened JsString
  import JsValue
  import UserSubscriptions
  import SubscriptionWorker

  datatype Rejection = EmptyName | InvalidUrl

  /** What a submission does: pass a name and URL on, or stop with an alert. */
  datatype Submission = Accepted(name: string, url: string) | Rejected(reason: Rejection)

  predicate HasHttpScheme(u: string) {
    StartsWith(u, HttpScheme) || StartsWith(u, HttpsScheme)
  }

  /** The checks of `handleSubmit`, the name first and then the URL. */
  function Validate(name: string, url: string): (r: Submission)
    ensures r.Accepted? ==> r.name == Trim(name) && r.url == Trim(url)
    ensures r.Accepted? ==> r.name != [] && HasHttpScheme(r.url) && IsTrimmed(r.name) && IsTrimmed(r.url)
    ensures r == Rejected(EmptyName) <==> Trim(name) == []
    ensures r == Rejected(InvalidUrl) <==> Trim(name) != [] && !HasHttpScheme(Trim(url))
  {
    var trimmedName := Trim(name);
    var trimmedUrl := Trim(url);
    if trimmedName == [] then Rejected(EmptyName)
    else if trimmedUrl == [] || !HasHttpScheme(trimmedUrl) then Rejected(InvalidUrl)
    else Accepted(trimmedName, trimmedUrl)
  }

  /** Submitting an accepted pair again is accepted with the same pair. */
  lemma ValidateStable(name: string, url: string)
    requires Validate(name, url).Accepted?
    ensures var r := Validate(name, url);
            Validate(r.name, r.url) == r
  {
    var r := Validate(name, url);
    TrimTrimmed(r.name);
    TrimTrimmed(r.url);
  }

  /** An accepted URL also passes the worker's own check on added URLs. */
  lemma AcceptedUrlPassesWorker(name: string, url: string)
    requires Validate(name, url).Accepted?
    ensures SubscriptionWorker.AcceptableUrl(JsValue.Text(Validate(name, url).url))
  {
    var u := Validate(name, url).url;
    assert u[..4] == "http" by {
      if StartsWith(u, HttpScheme) {
        assert u[..4] == u[..|HttpScheme|][..4];
      } else {
        assert u[..4] == u[..|HttpsScheme|][..4];
      }
    }
  }

  /**
   * The app stores an accepted submission as given: unless its address is
   * already listed, the user list grows by one entry with exactly the
   * submitted name and URL.
   */
  lemma AcceptedIsStoredAsGiven(name: string, url: string,
                                fixed: seq<UserSubscriptions.FixedSubscription>,
                                user: seq<UserSubscriptions.Subscription>, newId: string)
    requires Validate(name, url).Accepted?
    requires !UserSubscriptions.IsDuplicate(UserSubscriptions.Merge(fixed, user), Validate(name, url).url)
    ensures var r := Validate(name, url);
            UserSubscriptions.AddUserSubscription(fixed, user, r.name, r.url, newId, true)
              == user + [UserSubscriptions.Subscription(newId, r.name, r.url)]
  {
    var r := Validate(name, url);
    TrimTrimmed(r.name);
    TrimTrimmed(r.url);
  }

  /** The component's state: the two input fields. */
  class Form {
    var name: string
    var url: string

    constructor()
      ensures name == [] && url == []
    {
      name := [];
      url := [];
    }

    /** `setName`, from the name field's `onChange`. */
    method SetName(value: string)
      modifies this
      ensures name == value && url == old(url)
    {
      name := value;
    }

    /** `setUrl`, from the URL field's `onChange`. */
    method SetUrl(value: string)
      modifies this
      ensures url == value && name == old(name)
    {
      url := value;
    }

    /**
     * `handleSubmit`: on acceptance the pair is passed on and both fields
     * are cleared; on rejection both fields keep what was typed.
     */
    method HandleSubmit() returns (outcome: Submission)
      modifies this
      ensures outcome == Validate(old(name), old(url))
      ensures outcome.Accepted? ==> name == [] && url == []
      ensures outcome.Rejected? ==> name == old(name) && url == old(url)
    {
      var trimmedName := Trim(name);
      var trimmedUrl := Trim(url);
      if trimmedName == [] {
        return Rejected(EmptyName);
      }
      if trimmedUrl == [] || !(StartsWith(trimmedUrl, HttpScheme) || StartsWith(trimmedUrl, HttpsScheme)) {
        return Rejected(InvalidUrl);
      }
      outcome := Accepted(trimmedName, trimmedUrl);
      name := [];
      url := [];
    }
  }
}
