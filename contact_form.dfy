/** client/src/components/home/ContactForm.tsx: the contact schema and the
    submit button it enables. The schema collects one issue per failing
    field; the library's email check is a parameter. */
module ContactForm {

  /** The form's five string fields. */
  datatype ContactData = ContactData(name: string, email: string, phone: string, interest: string, message: string)

  /** The form's `defaultValues`: every field empty. */
  const DefaultValues := ContactData("", "", "", "", "")

  /** A failing field rule, one constructor per field. */
  datatype Issue = NameTooShort | InvalidEmail | PhoneTooShort | NoInterest | MessageTooShort
  {
    function Message(): string {
      match this
      case NameTooShort => "Name is required"
      case InvalidEmail => "Invalid email address"
      case PhoneTooShort => "Valid phone number required"
      case NoInterest => "Please select an area of interest"
      case MessageTooShort => "Message is too short"
    }
  }

  /** The rules in the schema's field order, each as the condition it checks
      and the issue it reports. */
  function Rules(d: ContactData, isEmail: string -> bool): seq<(bool, Issue)> {
    [ (|d.name| >= 2, NameTooShort),
      (isEmail(d.email), InvalidEmail),
      (|d.phone| >= 10, PhoneTooShort),
      (|d.interest| >= 1, NoInterest),
      (|d.message| >= 10, MessageTooShort) ]
  }

  /** The issues of the failing rules, in order. */
  function Failing(rules: seq<(bool, Issue)>): (r: seq<Issue>)
    ensures |r| <= |rules|
    ensures forall x :: x in r <==> exists i :: 0 <= i < |rules| && !rules[i].0 && rules[i].1 == x
  {
    if rules == [] then []
    else
      assert forall i :: 0 < i < |rules| ==> rules[1..][i - 1] == rules[i];
      (if rules[0].0 then [] else [rules[0].1]) + Failing(rules[1..])
  }

  /** What the resolver reports for the data. */
  function Issues(d: ContactData, isEmail: string -> bool): seq<Issue> {
    Failing(Rules(d, isEmail))
  }

  /** `formState.isValid`: the resolver reported nothing. The submit button
      reads it directly (`disabled={!form.formState.isValid}`), so it is also
      exactly when the button is enabled. */
  predicate IsValid(d: ContactData, isEmail: string -> bool) {
    Issues(d, isEmail) == []
  }

  /** Each issue is reported exactly when its field breaks its rule: a name
      shorter than 2, an address the email check refuses, a phone shorter
      than 10 characters of any kind, an empty interest, a message shorter than 10. */
  lemma IssueIffRuleBroken(d: ContactData, isEmail: string -> bool)
    ensures NameTooShort in Issues(d, isEmail) <==> |d.name| < 2
    ensures InvalidEmail in Issues(d, isEmail) <==> !isEmail(d.email)
    ensures PhoneTooShort in Issues(d, isEmail) <==> |d.phone| < 10
    ensures NoInterest in Issues(d, isEmail) <==> d.interest == []
    ensures MessageTooShort in Issues(d, isEmail) <==> |d.message| < 10
  {
    var rules := Rules(d, isEmail);
    assert rules[0].1 == NameTooShort && rules[1].1 == InvalidEmail && rules[2].1 == PhoneTooShort;
    assert rules[3].1 == NoInterest && rules[4].1 == MessageTooShort;
  }

  /** The form is valid, and submit enabled, exactly when all five rules hold. */
  lemma ValidIffAllRulesHold(d: ContactData, isEmail: string -> bool)
    ensures IsValid(d, isEmail) <==>
      |d.name| >= 2 && isEmail(d.email) && |d.phone| >= 10 && d.interest != [] && |d.message| >= 10
  {
    IssueIffRuleBroken(d, isEmail);
    if !IsValid(d, isEmail) {
      var x := Issues(d, isEmail)[0];
      assert x in Issues(d, isEmail);
    }
  }

  /** The untouched form cannot be submitted: four length rules already fail,
      whatever the email check says about the empty address. */
  lemma DefaultsRefused(isEmail: string -> bool)
    ensures !IsValid(DefaultValues, isEmail)
    ensures NameTooShort in Issues(DefaultValues, isEmail) && PhoneTooShort in Issues(DefaultValues, isEmail)
    ensures NoInterest in Issues(DefaultValues, isEmail) && MessageTooShort in Issues(DefaultValues, isEmail)
  {
    IssueIffRuleBroken(DefaultValues, isEmail);
  }

  /** The phone rule counts characters only: ten spaces pass it. */
  lemma PhoneOfSpacesAccepted(d: ContactData, isEmail: string -> bool)
    requires d.phone == "          "
    ensures PhoneTooShort !in Issues(d, isEmail)
  {
    IssueIffRuleBroken(d, isEmail);
  }

  /** The rule behind an issue holds for the data. */
  predicate RuleHolds(d: ContactData, isEmail: string -> bool, x: Issue) {
    match x
    case NameTooShort => |d.name| >= 2
    case InvalidEmail => isEmail(d.email)
    case PhoneTooShort => |d.phone| >= 10
    case NoInterest => d.interest != []
    case MessageTooShort => |d.message| >= 10
  }

  /** Two forms whose rules agree away from one issue report the same
      issues away from it. */
  lemma SameRulesSameIssues(d: ContactData, e: ContactData, isEmail: string -> bool, changed: Issue)
    requires forall x :: x != changed ==> (RuleHolds(d, isEmail, x) <==> RuleHolds(e, isEmail, x))
    ensures forall x :: x != changed ==> (x in Issues(e, isEmail) <==> x in Issues(d, isEmail))
  {
    IssueIffRuleBroken(d, isEmail);
    IssueIffRuleBroken(e, isEmail);
    forall x | x != changed ensures x in Issues(e, isEmail) <==> x in Issues(d, isEmail) {
      assert RuleHolds(d, isEmail, x) <==> RuleHolds(e, isEmail, x);
    }
  }

  /** Each rule looks at its own field only: changing one field changes
      nothing about the issues of the others. */
  lemma RulesAreIndependent(d: ContactData, isEmail: string -> bool, v: string)
    ensures var e := d.(name := v);
      forall x :: x != NameTooShort ==> (x in Issues(e, isEmail) <==> x in Issues(d, isEmail))
    ensures var e := d.(email := v);
      forall x :: x != InvalidEmail ==> (x in Issues(e, isEmail) <==> x in Issues(d, isEmail))
    ensures var e := d.(phone := v);
      forall x :: x != PhoneTooShort ==> (x in Issues(e, isEmail) <==> x in Issues(d, isEmail))
    ensures var e := d.(interest := v);
      forall x :: x != NoInterest ==> (x in Issues(e, isEmail) <==> x in Issues(d, isEmail))
    ensures var e := d.(message := v);
      forall x :: x != MessageTooShort ==> (x in Issues(e, isEmail) <==> x in Issues(d, isEmail))
  {
    SameRulesSameIssues(d, d.(name := v), isEmail, NameTooShort);
    SameRulesSameIssues(d, d.(email := v), isEmail, InvalidEmail);
    SameRulesSameIssues(d, d.(phone := v), isEmail, PhoneTooShort);
    SameRulesSameIssues(d, d.(interest := v), isEmail, NoInterest);
    SameRulesSameIssues(d, d.(message := v), isEmail, MessageTooShort);
  }
}
