/** The consent form: four agreement checkboxes gate the submission of a
    consent record. */
module ConsentForm {
  import opened Types

  /** The four agreements, as the checkboxes hold them. */
  datatype Agreements = Agreements(dataUsage: bool, locationTracking: bool, researchPurpose: bool, anonymousData: bool)

  /** The calls the form makes on submit: an alert, the consent handed to
      the page, and the close callback. */
  datatype Event = Alerted | Submitted(consent: UserConsent) | Closed

  /** `allAgreed`. */
  predicate AllAgreed(a: Agreements) {
    a.dataUsage && a.locationTracking && a.researchPurpose && a.anonymousData
  }

  /** `handleSubmit` with a fresh user id and the time `now`: an alert when
      an agreement is missing, otherwise the consent record and then the
      close callback. */
  function SubmitEvents(a: Agreements, userId: string, now: int): (r: seq<Event>)
    ensures |r| >= 1
  {
    if !a.dataUsage || !a.locationTracking || !a.researchPurpose || !a.anonymousData then [Alerted]
    else [Submitted(UserConsent(userId, true, now, a.dataUsage, a.locationTracking)), Closed]
  }

  /** A consent is handed on, and the form closed, exactly when all four
      agreements are given; it is handed on once, before the close, and
      records consent, the user, the date and the two copied agreements,
      which are then both true. */
  lemma SubmitGate(a: Agreements, userId: string, now: int)
    ensures var r := SubmitEvents(a, userId, now);
      && ((exists i :: 0 <= i < |r| && r[i].Submitted?) <==> AllAgreed(a))
      && ((exists i :: 0 <= i < |r| && r[i] == Closed) <==> AllAgreed(a))
      && (AllAgreed(a) ==> r == [Submitted(UserConsent(userId, true, now, true, true)), Closed])
      && (!AllAgreed(a) ==> r == [Alerted])
  {
    var r := SubmitEvents(a, userId, now);
    if !AllAgreed(a) {
      assert forall i :: 0 <= i < |r| ==> r[i] == Alerted;
    } else {
      assert r[0].Submitted? && r[1] == Closed;
    }
  }

  /** Every consent the form hands on gives consent and both copied
      agreements. */
  lemma SubmittedConsentAgrees(a: Agreements, userId: string, now: int, i: nat)
    requires i < |SubmitEvents(a, userId, now)| && SubmitEvents(a, userId, now)[i].Submitted?
    ensures var c := SubmitEvents(a, userId, now)[i].consent;
      c.consentGiven && c.dataUsageAgreed && c.locationTrackingAgreed && c.userId == userId && c.consentDate == now
  {
  }

  /** Some agreement is missing exactly when every submission only
      alerts. */
  lemma OnlyAlertIffNotAgreed(a: Agreements)
    ensures !AllAgreed(a) <==> forall u, n :: SubmitEvents(a, u, n) == [Alerted]
  {
    if AllAgreed(a) {
      assert SubmitEvents(a, "", 0)[0].Submitted?;
    }
  }

  class ConsentFormState {
    /** The `isOpen` property. */
    var isOpen: bool
    var dataUsageAgreed: bool
    var locationTrackingAgreed: bool
    var researchPurposeAgreed: bool
    var anonymousDataAgreed: bool

    /** A new form has nothing agreed. */
    constructor (open: bool)
      ensures isOpen == open && !AllAgreed(Agreed())
      ensures !dataUsageAgreed && !locationTrackingAgreed && !researchPurposeAgreed && !anonymousDataAgreed
    {
      isOpen := open;
      dataUsageAgreed := false;
      locationTrackingAgreed := false;
      researchPurposeAgreed := false;
      anonymousDataAgreed := false;
    }

    function Agreed(): Agreements
      reads this
    {
      Agreements(dataUsageAgreed, locationTrackingAgreed, researchPurposeAgreed, anonymousDataAgreed)
    }

    /** The form renders nothing while it is closed. */
    predicate Rendered()
      reads this
    {
      isOpen
    }

    /** The submit button is disabled exactly when submitting would only
        raise the alert, whoever submits and whenever. */
    function SubmitDisabled(): (disabled: bool)
      reads this
      ensures disabled <==> forall u, n :: SubmitEvents(Agreed(), u, n) == [Alerted]
    {
      OnlyAlertIffNotAgreed(Agreed());
      !AllAgreed(Agreed())
    }

    method SetDataUsage(checked: bool)
      modifies this`dataUsageAgreed
      ensures dataUsageAgreed == checked
    {
      dataUsageAgreed := checked;
    }

    method SetLocationTracking(checked: bool)
      modifies this`locationTrackingAgreed
      ensures locationTrackingAgreed == checked
    {
      locationTrackingAgreed := checked;
    }

    method SetResearchPurpose(checked: bool)
      modifies this`researchPurposeAgreed
      ensures researchPurposeAgreed == checked
    {
      researchPurposeAgreed := checked;
    }

    method SetAnonymousData(checked: bool)
      modifies this`anonymousDataAgreed
      ensures anonymousDataAgreed == checked
    {
      anonymousDataAgreed := checked;
    }

    /** Submitting the rendered form: it changes no state of its own and
        makes the calls `SubmitEvents` describes. */
    method Submit(userId: string, now: int) returns (events: seq<Event>)
      requires Rendered()
      ensures events == SubmitEvents(Agreed(), userId, now)
      ensures (exists i :: 0 <= i < |events| && events[i].Submitted?) <==> !SubmitDisabled()
    {
      SubmitGate(Agreed(), userId, now);
      if !dataUsageAgreed || !locationTrackingAgreed || !researchPurposeAgreed || !anonymousDataAgreed {
        events := [Alerted];
        return;
      }
      var consent := UserConsent(userId, true, now, dataUsageAgreed, locationTrackingAgreed);
      events := [Submitted(consent), Closed];
    }
  }
}
