/** The footer's newsletter form: an email input and an error line. */
module Footer {
  import opened Wrappers
  import opened EmailPattern

  const EnterEmailMessage := "Please enter your email"
  const InvalidEmailMessage := "Please enter a valid email"
  const SubscribedToast := Toast("Subscription Successful!", "Thank you for subscribing to our newsletter.")

  /** The component's state: the `email` and `emailError` fields. The form's
      `validateEmail` is `EmailPattern.Matches`, the same test the booking
      form applies. */
  class NewsletterForm {
    var email: string
    var emailError: string

    constructor ()
      ensures email == "" && emailError == ""
    {
      email := "";
      emailError := "";
    }

    /** `handleSubscribe`: an empty email is reported before the format is
        checked; a badly formed one is reported and kept; a good one is
        thanked with a toast and both fields are cleared. */
    method HandleSubscribe() returns (toast: Option<Toast>)
      modifies this
      ensures old(email) == "" ==>
        email == old(email) && emailError == EnterEmailMessage && toast == None
      ensures old(email) != "" && !Matches(old(email)) ==>
        email == old(email) && emailError == InvalidEmailMessage && toast == None
      ensures old(email) != "" && Matches(old(email)) ==>
        email == "" && emailError == "" && toast == Some(SubscribedToast)
    {
      if email == "" {
        emailError := EnterEmailMessage;
        return None;
      }

      if !Matches(email) {
        emailError := InvalidEmailMessage;
        return None;
      }

      toast := Some(SubscribedToast);
      email := "";
      emailError := "";
    }

    /** The input's `onChange`: take the new value and clear the error. */
    method HandleInput(value: string)
      modifies this
      ensures email == value && emailError == ""
    {
      email := value;
      emailError := "";
    }
  }
}
