/**
 * The contact form's submit-time validation: three checks in a fixed order,
 * each failure reported by its own message, and acceptance only when all
 * three pass.
 */
module ContactForm {
  import opened Patterns

  /** The submitted entries, field name to value, as the form holds them. */
  type FormData = map<string, string>

  datatype Outcome = MissingField | BadEmail | BadPhone | Ok

  /** The text of the notification shown for each outcome. */
  function Message(o: Outcome): string {
    match o
    case MissingField => "请填写所有必填字段"
    case BadEmail => "请输入有效的邮箱地址"
    case BadPhone => "请输入有效的手机号码"
    case Ok => "提交成功！我们会尽快与您联系。"
  }

  /** The notification variant shown for each outcome. */
  function Variant(o: Outcome): string {
    if o == Ok then "success" else "error"
  }

  /** A field is filled in unless it is absent or empty; a value of spaces
      counts as filled in. */
  predicate Filled(data: FormData, field: string) {
    field in data && data[field] != ""
  }

  predicate AllRequiredFilled(data: FormData) {
    && Filled(data, "name")
    && Filled(data, "organization")
    && Filled(data, "phone")
    && Filled(data, "email")
  }

  /** The validation of one submission. Missing fields are reported first,
      then a malformed email, then a malformed phone number. */
  function Validate(data: FormData): (o: Outcome)
    ensures o == MissingField <==> !AllRequiredFilled(data)
    ensures o == BadEmail <==> AllRequiredFilled(data) && !EmailShape(data["email"])
    ensures o == BadPhone <==>
      AllRequiredFilled(data) && EmailShape(data["email"]) && !PhoneShape(data["phone"])
    ensures o == Ok <==>
      AllRequiredFilled(data) && EmailShape(data["email"]) && PhoneShape(data["phone"])
  {
    if !AllRequiredFilled(data) then MissingField
    else
      EmailPatternMeans(data["email"]);
      PhonePatternMeans(data["phone"]);
      if !EmailPattern(data["email"]) then BadEmail
      else if !PhonePattern(data["phone"]) then BadPhone
      else Ok
  }

  /** While a required field is missing or the email is bad, replacing a
      filled-in phone number by any other filled-in value leaves the outcome
      unchanged: the phone is looked at only after the email passes. */
  lemma PhoneIrrelevantUntilEmailPasses(data: FormData, phone: string)
    requires Filled(data, "phone") && phone != ""
    requires !AllRequiredFilled(data) || !EmailShape(data["email"])
    ensures Validate(data["phone" := phone]) == Validate(data)
  {
    var other := data["phone" := phone];
    assert AllRequiredFilled(other) == AllRequiredFilled(data);
    assert "email" in data ==> other["email"] == data["email"];
  }

  /** A submission with every field filled in, a valid email and a phone
      number whose second digit is 2. */
  function Example(): (data: FormData)
    ensures AllRequiredFilled(data)
    ensures data["email"] == "a@b.co" && data["phone"] == "12345678901"
  {
    map["name" := "张三", "organization" := "某剧团",
        "email" := "a@b.co", "phone" := "12345678901"]
  }

  /** A wrong second digit gives the phone error. */
  lemma RejectsExamplePhone()
    ensures Validate(Example()) == BadPhone
  {
    EmailAcceptsExample();
    PhoneExamples();
  }

  /** A bad email is reported before a bad phone: with every field filled
      in and both malformed, the outcome is the email error. */
  lemma PrefersEmailError(data: FormData)
    requires AllRequiredFilled(data)
    requires !EmailShape(data["email"]) && !PhoneShape(data["phone"])
    ensures Validate(data) == BadEmail
  {
  }

  /** The example with a bad email as well as its bad phone gets the email error. */
  lemma PrefersEmailErrorExample()
    ensures Validate(Example()["email" := "not-an-email"]) == BadEmail
  {
    var data := Example()["email" := "not-an-email"];
    assert AllRequiredFilled(data);
    EmailRejectsExample();
    PhoneExamples();
    PrefersEmailError(data);
  }

  /** With the phone corrected, the submission is accepted. */
  lemma AcceptsCorrectedExample()
    ensures Validate(Example()["phone" := "13812345678"]) == Ok
  {
    var data := Example()["phone" := "13812345678"];
    assert AllRequiredFilled(data) && data["email"] == "a@b.co";
    EmailAcceptsExample();
    PhoneExamples();
  }

  /** An empty name makes the submission a missing-field error whatever the
      other fields hold, while a name of one space passes the required check. */
  lemma EmptyIsMissingSpaceIsNot(data: FormData)
    ensures ("name" in data && data["name"] == "") ==> Validate(data) == MissingField
    ensures Filled(data["name" := " "], "name")
  {
  }

  /** The example with an empty name is a missing-field error; with a name of
      one space it gets past the required check to the phone error. */
  lemma EmptyIsMissingSpaceIsNotExample()
    ensures Validate(Example()["name" := ""]) == MissingField
    ensures Validate(Example()["name" := " "]) == BadPhone
  {
    var data := Example()["name" := " "];
    assert AllRequiredFilled(data) && data["email"] == "a@b.co" && data["phone"] == "12345678901";
    EmailAcceptsExample();
    PhoneExamples();
  }
}
