/** The journey feedback form (src/components/Feedback/FeedbackForm.tsx):
    its fields, the check that the required ones are filled in, and the
    submitting flag around the call to the feedback service.

    The service's answer is an input (`SubmitReply`): the identifier suffix
    and timestamp it would draw, or a rejection. Toasts are recorded as the
    sequence `toasts`. */
module FeedbackForm {
  import opened Basics
  import Api

  datatype Toast = MissingFields | Thanks | SubmitFailed

  datatype SubmitReply = Accepted(idSuffix: string, createdAt: string) | Rejected

  /** The required-field check of `handleSubmit`: a rating, a review and an
      answer to "on time?" are needed; the two sliders are not checked. */
  function Validated(busNumber: string, rating: int, review: string, timelyArrival: Option<bool>,
                     cleanliness: int, driverBehavior: int): (r: Option<Api.FeedbackInput>)
    ensures r.Some? <==> rating != 0 && review != "" && timelyArrival.Some?
    ensures r.Some? ==> r.value == Api.FeedbackInput(busNumber, rating, review, timelyArrival.value,
                                                     cleanliness, driverBehavior)
  {
    if rating == 0 || review == "" || timelyArrival.None? then None
    else Some(Api.FeedbackInput(busNumber, rating, review, timelyArrival.value, cleanliness, driverBehavior))
  }

  /** Sliders left untouched still pass the check, with 0 for both scores,
      below the sliders' own minimum of 1. */
  lemma UntouchedSlidersAccepted(busNumber: string, rating: int, review: string, timely: bool)
    requires rating != 0 && review != ""
    ensures Validated(busNumber, rating, review, Some(timely), 0, 0).Some?
    ensures Validated(busNumber, rating, review, Some(timely), 0, 0).value.cleanliness == 0
  {
  }

  class FeedbackFormState {
    const busNumber: string
    var rating: int
    var review: string
    var timelyArrival: Option<bool>
    var cleanliness: int
    var driverBehavior: int
    var isSubmitting: bool
    /** Feedback records the service has accepted from this form. */
    var submitted: seq<Api.Feedback>
    var toasts: seq<Toast>
    /** Calls of the parent's `onSubmit`. */
    var onSubmitCalls: nat

    /** The star rating is 0 (none yet) or one of the five stars. */
    ghost predicate Valid()
      reads this
    {
      0 <= rating <= 5
    }

    constructor (busNumber: string)
      ensures Valid()
      ensures this.busNumber == busNumber
      ensures rating == 0 && review == "" && timelyArrival == None && cleanliness == 0 && driverBehavior == 0
      ensures !isSubmitting && submitted == [] && toasts == [] && onSubmitCalls == 0
    {
      this.busNumber := busNumber;
      rating := 0;
      review := "";
      timelyArrival := None;
      cleanliness := 0;
      driverBehavior := 0;
      isSubmitting := false;
      submitted := [];
      toasts := [];
      onSubmitCalls := 0;
    }

    /** A star button. */
    method SetRating(star: int)
      requires 1 <= star <= 5
      modifies this`rating
      ensures Valid() && rating == star
    {
      rating := star;
    }

    /** The "on time?" buttons. */
    method SetTimelyArrival(onTime: bool)
      modifies this`timelyArrival
      ensures timelyArrival == Some(onTime)
    {
      timelyArrival := Some(onTime);
    }

    /** The cleanliness slider, whose range is 1 to 5. */
    method SetCleanliness(score: int)
      requires 1 <= score <= 5
      modifies this`cleanliness
      ensures cleanliness == score
    {
      cleanliness := score;
    }

    /** The driver-behaviour slider, whose range is 1 to 5. */
    method SetDriverBehavior(score: int)
      requires 1 <= score <= 5
      modifies this`driverBehavior
      ensures driverBehavior == score
    {
      driverBehavior := score;
    }

    /** The review text area. */
    method SetReview(text: string)
      modifies this`review
      ensures review == text
    {
      review := text;
    }

    /** The synchronous half of `handleSubmit`: an incomplete form is refused
        with a toast and nothing else changes; a complete one becomes the
        submission and the form is marked submitting. */
    method BeginSubmit() returns (submission: Option<Api.FeedbackInput>)
      modifies this`isSubmitting, this`toasts
      ensures submission == Validated(busNumber, rating, review, timelyArrival, cleanliness, driverBehavior)
      ensures submission.None? ==> toasts == old(toasts) + [MissingFields] && isSubmitting == old(isSubmitting)
      ensures submission.Some? ==> toasts == old(toasts) && isSubmitting
    {
      submission := Validated(busNumber, rating, review, timelyArrival, cleanliness, driverBehavior);
      if submission.None? {
        toasts := toasts + [MissingFields];
        return;
      }
      isSubmitting := true;
    }

    /** The asynchronous half: an accepted submission is recorded, thanked
        and reported to the parent; a rejected one gets an error toast.
        Either way the form is no longer submitting, and its fields stay. */
    method FinishSubmit(submission: Api.FeedbackInput, reply: SubmitReply)
      modifies this`isSubmitting, this`toasts, this`submitted, this`onSubmitCalls
      ensures !isSubmitting
      ensures reply.Accepted? ==>
                && submitted == old(submitted) + [Api.SubmitFeedback(submission, reply.idSuffix, reply.createdAt)]
                && toasts == old(toasts) + [Thanks]
                && onSubmitCalls == old(onSubmitCalls) + 1
      ensures reply.Rejected? ==>
                submitted == old(submitted) && toasts == old(toasts) + [SubmitFailed] &&
                onSubmitCalls == old(onSubmitCalls)
    {
      if reply.Accepted? {
        submitted := submitted + [Api.SubmitFeedback(submission, reply.idSuffix, reply.createdAt)];
        toasts := toasts + [Thanks];
        onSubmitCalls := onSubmitCalls + 1;
      } else {
        toasts := toasts + [SubmitFailed];
      }
      isSubmitting := false;
    }

    /** `handleSubmit` from start to end: only a complete form reaches the
        service, and what it records carries exactly the form's fields; the
        parent's `onSubmit` runs once for an accepted submission and never
        otherwise. */
    method HandleSubmit(reply: SubmitReply)
      requires Valid()
      modifies this`isSubmitting, this`toasts, this`submitted, this`onSubmitCalls
      ensures Valid()
      ensures Validated(busNumber, rating, review, timelyArrival, cleanliness, driverBehavior).None? ==>
                submitted == old(submitted) && toasts == old(toasts) + [MissingFields] &&
                onSubmitCalls == old(onSubmitCalls) && isSubmitting == old(isSubmitting)
      ensures Validated(busNumber, rating, review, timelyArrival, cleanliness, driverBehavior).Some? ==> !isSubmitting
      ensures reply.Accepted? && Validated(busNumber, rating, review, timelyArrival, cleanliness, driverBehavior).Some? ==>
                && submitted == old(submitted) +
                     [Api.SubmitFeedback(Validated(busNumber, rating, review, timelyArrival, cleanliness, driverBehavior).value,
                                         reply.idSuffix, reply.createdAt)]
                && toasts == old(toasts) + [Thanks]
                && onSubmitCalls == old(onSubmitCalls) + 1
      ensures reply.Rejected? && Validated(busNumber, rating, review, timelyArrival, cleanliness, driverBehavior).Some? ==>
                submitted == old(submitted) && toasts == old(toasts) + [SubmitFailed] &&
                onSubmitCalls == old(onSubmitCalls)
      ensures reply.Accepted? && Validated(busNumber, rating, review, timelyArrival, cleanliness, driverBehavior).Some? ==>
                && |submitted| == |old(submitted)| + 1
                && submitted[..|old(submitted)|] == old(submitted)
                && var f := submitted[|submitted| - 1];
                   f.busNumber == busNumber && 1 <= f.rating <= 5 && f.review == review && f.review != "" &&
                   Some(f.timelyArrival) == timelyArrival && f.createdAt == reply.createdAt &&
                   f.cleanliness == cleanliness && f.driverBehavior == driverBehavior
    {
      var submission := BeginSubmit();
      if submission.Some? {
        FinishSubmit(submission.value, reply);
      }
    }
  }
}
