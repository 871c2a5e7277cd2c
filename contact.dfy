/** The contact-form endpoint: required fields, the e-mail pattern and the normalisation of
    the stored message. */
module Contact {
  import opened Strings

  /** The four form fields; the empty string stands for a missing or falsy field. */
  datatype Form = Form(name: string, email: string, subject: string, message: string)

  /** `MissingField` and `InvalidEmail` are the 400 replies, `Saved` the 201 reply. */
  datatype ContactReply =
    | MissingField
    | InvalidEmail
    | Saved(stored: Form, emailSent: bool, autoReplySent: bool)

  function Status(reply: ContactReply): (code: int)
    ensures code == 201 <==> reply.Saved?
    ensures code == 400 <==> !reply.Saved?
  {
    if reply.Saved? then 201 else 400
  }

  /** A character the class `[^\s@]` accepts. */
  predicate Plain(c: char) {
    !IsSpace(c) && c != '@'
  }

  predicate AllPlain(s: string) {
    forall i :: 0 <= i < |s| ==> Plain(s[i])
  }

  /** A dot that is neither the first nor the last character. */
  predicate InnerDot(d: string) {
    exists k | 0 < k < |d| - 1 :: d[k] == '.'
  }

  /** The pattern test, by splitting at the first `@`: a non-empty local part and a domain
      with an inner dot, neither holding `@` or white space. */
  predicate ValidEmail(e: string) {
    var local := FirstField(e, '@');
    0 < |local| < |e| && AllPlain(local) && AllPlain(e[|local| + 1..]) && InnerDot(e[|local| + 1..])
  }

  /** What `^[^\s@]+@[^\s@]+\.[^\s@]+$` matches, by its split points: an `@` at `at` and a
      dot at `dot`, each run between them non-empty, and no other `@` or white space. */
  ghost predicate MatchesPattern(e: string) {
    exists at, dot | 0 < at && at + 1 < dot < |e| - 1 ::
      e[at] == '@' && e[dot] == '.' && forall j :: 0 <= j < |e| && j != at ==> Plain(e[j])
  }

  /** The split-at-the-first-`@` test accepts exactly the strings the pattern matches. */
  lemma ValidEmailIffPattern(e: string)
    ensures ValidEmail(e) <==> MatchesPattern(e)
  {
    if ValidEmail(e) {
      ValidEmailMatches(e);
    }
    if MatchesPattern(e) {
      MatchIsValidEmail(e);
    }
  }

  lemma ValidEmailMatches(e: string)
    requires ValidEmail(e)
    ensures MatchesPattern(e)
  {
    var local := FirstField(e, '@');
    var at := |local|;
    var domain := e[at + 1..];
    var k :| 0 < k < |domain| - 1 && domain[k] == '.';
    assert e[at] == '@' && e[at + 1 + k] == '.';
    forall j | 0 <= j < |e| && j != at
      ensures Plain(e[j])
    {
      if j < at {
        assert e[j] == local[j];
      } else {
        assert e[j] == domain[j - at - 1];
      }
    }
  }

  lemma MatchIsValidEmail(e: string)
    requires MatchesPattern(e)
    ensures ValidEmail(e)
  {
    var a, d :| 0 < a && a + 1 < d < |e| - 1 && e[a] == '@' && e[d] == '.'
                && forall j :: 0 <= j < |e| && j != a ==> Plain(e[j]);
    var local := FirstField(e, '@');
    assert |local| == a;
    assert forall i :: 0 <= i < |local| ==> local[i] == e[i];
    var domain := e[a + 1..];
    assert domain[d - a - 1] == '.';
    assert forall i :: 0 <= i < |domain| ==> domain[i] == e[a + 1 + i];
  }

  /** Lower-casing keeps a character inside `[^\s@]`. */
  lemma LowerCharPlain(c: char)
    requires Plain(c)
    ensures Plain(LowerChar(c))
  {
  }

  /** The stored address of an accepted e-mail still matches the pattern. */
  lemma LowerCasedEmailStillMatches(e: string)
    requires MatchesPattern(e)
    ensures MatchesPattern(ToLower(e))
  {
    var a, d :| 0 < a && a + 1 < d < |e| - 1 && e[a] == '@' && e[d] == '.'
                && forall j :: 0 <= j < |e| && j != a ==> Plain(e[j]);
    var l := ToLower(e);
    forall j | 0 <= j < |l| && j != a
      ensures Plain(l[j])
    {
      LowerCharPlain(e[j]);
    }
    assert l[a] == '@' && l[d] == '.';
  }

  /** The record the endpoint saves: every field trimmed, the e-mail also lower-cased. */
  function Normalise(f: Form): (n: Form)
    ensures |n.name| <= |f.name| && |n.subject| <= |f.subject| && |n.message| <= |f.message|
    ensures |n.email| <= |f.email|
  {
    Form(Trim(f.name), ToLower(Trim(f.email)), Trim(f.subject), Trim(f.message))
  }

  /** POST with the outcomes of the admin notification and of the auto-reply, which the reply
      ignores. */
  function Post(f: Form, notificationSent: bool, autoReplySent: bool): ContactReply {
    if f.name == "" || f.email == "" || f.subject == "" || f.message == "" then MissingField
    else if !ValidEmail(f.email) then InvalidEmail
    else Saved(Normalise(f), true, true)
  }

  /** A missing field is reported before, and instead of, a malformed e-mail. */
  lemma RequiredFieldsFirst(f: Form, n: bool, a: bool)
    ensures Post(f, n, a) == MissingField <==>
              f.name == "" || f.email == "" || f.subject == "" || f.message == ""
  {
  }

  /** With every field present, the reply is 400 exactly when the pattern does not match. */
  lemma InvalidEmailIffNoMatch(f: Form, n: bool, a: bool)
    requires f.name != "" && f.email != "" && f.subject != "" && f.message != ""
    ensures Post(f, n, a) == InvalidEmail <==> !MatchesPattern(f.email)
  {
    ValidEmailIffPattern(f.email);
  }

  /** An accepted address has nothing to trim, so the stored address is its lower-case form,
      and that still matches the pattern. */
  lemma StoredEmailIsLowerCase(f: Form, n: bool, a: bool)
    requires Post(f, n, a).Saved?
    ensures Post(f, n, a).stored.email == ToLower(f.email)
    ensures MatchesPattern(Post(f, n, a).stored.email)
  {
    ValidEmailIffPattern(f.email);
    PatternHasNoSpace(f.email);
    TrimNoSpace(f.email);
    LowerCasedEmailStillMatches(f.email);
  }

  /** A matching address holds no white space at all. */
  lemma PatternHasNoSpace(e: string)
    requires MatchesPattern(e)
    ensures NoSpace(e)
  {
    var a, d :| 0 < a && a + 1 < d < |e| - 1 && e[a] == '@' && e[d] == '.'
                && forall j :: 0 <= j < |e| && j != a ==> Plain(e[j]);
  }

  /** The 201 reply always claims both e-mails were sent, whatever the senders reported. */
  lemma ReplyIgnoresDelivery(f: Form, n1: bool, a1: bool, n2: bool, a2: bool)
    ensures Post(f, n1, a1) == Post(f, n2, a2)
    ensures Post(f, n1, a1).Saved? ==> Post(f, n1, a1).emailSent && Post(f, n1, a1).autoReplySent
  {
  }

  /** Lower-casing neither adds nor removes white space at the ends. */
  lemma ToLowerKeepsEnds(s: string)
    requires s == [] || (!IsSpace(s[0]) && !IsSpace(s[|s| - 1]))
    ensures ToLower(s) == [] || (!IsSpace(ToLower(s)[0]) && !IsSpace(ToLower(s)[|s| - 1]))
  {
  }

  /** Normalising a saved record again changes nothing. */
  lemma NormaliseIdempotent(f: Form)
    ensures Normalise(Normalise(f)) == Normalise(f)
  {
    TrimIdempotent(f.name);
    TrimIdempotent(f.subject);
    TrimIdempotent(f.message);
    var e := Trim(f.email);
    ToLowerKeepsEnds(e);
    TrimFixed(ToLower(e));
    ToLowerIdempotent(e);
  }
}
