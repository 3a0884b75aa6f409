/** `SignUpSchema`: the sign-up form's validation rules. Each field has its own
    check, and a refinement over the whole object reports mismatching
    passwords on the `confirmPassword` field. */
module SignUpSchema {
  import opened Wrappers

  datatype SignUpInput = SignUpInput(email: string, password: string, confirmPassword: string)

  /** A validation issue: the path of the offending field and its message. */
  datatype Issue = Issue(path: seq<string>, message: string)

  const MinPasswordLength: nat := 6
  const InvalidEmail: string := "Digite um email válido"
  const ShortPassword: string := "Senha deve ter pelo menos 6 caracteres"
  const ShortConfirmation: string := "Confirmar senha deve ter pelo menos 6 caracteres"
  const PasswordsDiffer: string := "As senhas não coincidem"

  /** The per-field issues, in field order. The email format check belongs to
      the validation library and is passed in as `isEmail`. */
  function FieldIssues(input: SignUpInput, isEmail: string -> bool): (issues: seq<Issue>)
    ensures Issue(["email"], InvalidEmail) in issues <==> !isEmail(input.email)
    ensures Issue(["password"], ShortPassword) in issues <==> |input.password| < MinPasswordLength
    ensures Issue(["confirmPassword"], ShortConfirmation) in issues
        <==> |input.confirmPassword| < MinPasswordLength
    ensures forall k :: 0 <= k < |issues| ==>
      issues[k] == Issue(["email"], InvalidEmail)
      || issues[k] == Issue(["password"], ShortPassword)
      || issues[k] == Issue(["confirmPassword"], ShortConfirmation)
    ensures forall a, b :: 0 <= a < b < |issues| ==> issues[a] != issues[b]
    ensures |issues| <= 3
  {
    (if isEmail(input.email) then [] else [Issue(["email"], InvalidEmail)])
    + (if |input.password| >= MinPasswordLength then [] else [Issue(["password"], ShortPassword)])
    + (if |input.confirmPassword| >= MinPasswordLength then []
       else [Issue(["confirmPassword"], ShortConfirmation)])
  }

  /** The `refine` step: `data.password === data.confirmPassword`. */
  function RefineIssue(input: SignUpInput): (issue: Option<Issue>)
    ensures issue.Some? <==> input.password != input.confirmPassword
    ensures issue.Some? ==> issue.value == Issue(["confirmPassword"], PasswordsDiffer)
  {
    if input.password == input.confirmPassword then None
    else Some(Issue(["confirmPassword"], PasswordsDiffer))
  }

  /** The schema accepts an input when neither the fields nor the refinement complain. */
  predicate Accepts(input: SignUpInput, isEmail: string -> bool) {
    FieldIssues(input, isEmail) == [] && RefineIssue(input).None?
  }

  /** An input is accepted exactly when its email passes the email check, both
      passwords have at least six characters and they are equal, character for
      character. */
  lemma AcceptsIff(input: SignUpInput, isEmail: string -> bool)
    ensures Accepts(input, isEmail) <==>
      isEmail(input.email)
      && |input.password| >= 6 && |input.confirmPassword| >= 6
      && input.password == input.confirmPassword
  {
    var issues := FieldIssues(input, isEmail);
    if issues != [] {
      assert issues[0] in issues;
    }
  }

  /** When the two passwords are equal, either both length checks fail or neither does. */
  lemma EqualPasswordsShareLengthCheck(input: SignUpInput, isEmail: string -> bool)
    requires input.password == input.confirmPassword
    ensures (Issue(["password"], ShortPassword) in FieldIssues(input, isEmail))
        <==> (Issue(["confirmPassword"], ShortConfirmation) in FieldIssues(input, isEmail))
  {
  }
}
