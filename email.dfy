/** E-mail delivery for the contact form: which vendors are configured, the fallback chain
    that tries them in order, and the configuration self-test. Each vendor send is an oracle
    whose boolean outcome is given. */
module Email {
  import opened Strings

  /** The environment variables the configuration reads; `None` when unset. */
  datatype Env = Env(resendKey: Option<string>, sendgridKey: Option<string>,
                     mailgunKey: Option<string>, mailgunDomain: Option<string>)

  datatype Service = Resend | SendGrid | Mailgun

  datatype Config = Config(resend: bool, sendgrid: bool, mailgun: bool)

  /** What each vendor's send would return for this message. */
  datatype Outcomes = Outcomes(resend: bool, sendgrid: bool, mailgun: bool)

  /** The results of the self-test. */
  datatype TestResults = TestResults(resend: bool, sendgrid: bool, mailgun: bool, overall: bool)

  /** `!!value`: set and non-empty. */
  predicate IsSet(v: Option<string>) {
    v.Some? && v.value != ""
  }

  /** Resend and SendGrid need their API key; Mailgun needs both its key and its domain. */
  function GetConfig(env: Env): (c: Config)
    ensures c.resend <==> IsSet(env.resendKey)
    ensures c.sendgrid <==> IsSet(env.sendgridKey)
    ensures c.mailgun <==> IsSet(env.mailgunKey) && IsSet(env.mailgunDomain)
  {
    Config(IsSet(env.resendKey), IsSet(env.sendgridKey), IsSet(env.mailgunKey) && IsSet(env.mailgunDomain))
  }

  /** The order of preference. */
  const ORDER: seq<Service> := [Resend, SendGrid, Mailgun]

  predicate Enabled(c: Config, s: Service) {
    match s
    case Resend => c.resend
    case SendGrid => c.sendgrid
    case Mailgun => c.mailgun
  }

  predicate Succeeds(o: Outcomes, s: Service) {
    match s
    case Resend => o.resend
    case SendGrid => o.sendgrid
    case Mailgun => o.mailgun
  }

  /** The enabled services among `ss`, in the order of `ss`. */
  function EnabledAmong(c: Config, ss: seq<Service>): (r: seq<Service>)
    ensures |r| <= |ss|
  {
    if ss == [] then []
    else
      var n := |ss| - 1;
      EnabledAmong(c, ss[..n]) + (if Enabled(c, ss[n]) then [ss[n]] else [])
  }

  /** A service is kept exactly when it is listed and enabled. */
  lemma {:induction false} EnabledAmongMembers(c: Config, ss: seq<Service>)
    ensures forall s :: s in EnabledAmong(c, ss) <==> s in ss && Enabled(c, s)
    decreases |ss|
  {
    if ss != [] {
      var n := |ss| - 1;
      assert ss == ss[..n] + [ss[n]];
      EnabledAmongMembers(c, ss[..n]);
    }
  }

  /** Some enabled service would deliver the message. */
  predicate AnySucceeds(c: Config, o: Outcomes) {
    exists s :: Enabled(c, s) && Succeeds(o, s)
  }

  /** Every vendor appears in the order of preference. */
  lemma InOrder(s: Service)
    ensures s in ORDER
  {
    assert ORDER[0] == Resend && ORDER[1] == SendGrid && ORDER[2] == Mailgun;
  }

  /** The enabled services, vendor by vendor. */
  lemma {:induction false} EnabledInOrder(c: Config)
    ensures EnabledAmong(c, ORDER[..1]) == (if c.resend then [Resend] else [])
    ensures EnabledAmong(c, ORDER[..2]) == EnabledAmong(c, ORDER[..1]) + (if c.sendgrid then [SendGrid] else [])
    ensures EnabledAmong(c, ORDER) == EnabledAmong(c, ORDER[..2]) + (if c.mailgun then [Mailgun] else [])
  {
    assert ORDER[..1][..0] == [];
    assert ORDER[..2][..1] == ORDER[..1];
    assert ORDER[..3] == ORDER;
    assert ORDER[..3][..2] == ORDER[..2];
  }

  /** Sends the admin notification: with no service enabled, gives up at once; otherwise tries
      the enabled services in order and stops at the first that delivers. Returns whether the
      message went out and the services called, in call order. */
  method SendNotification(c: Config, o: Outcomes) returns (sent: bool, called: seq<Service>)
    ensures sent <==> AnySucceeds(c, o)
    ensures called <= EnabledAmong(c, ORDER)
    ensures sent ==> called != [] && Succeeds(o, called[|called| - 1])
    ensures forall i :: 0 <= i < |called| - 1 ==> !Succeeds(o, called[i])
    ensures !sent ==> called == EnabledAmong(c, ORDER)
  {
    called := [];
    if !c.resend && !c.sendgrid && !c.mailgun {
      assert !AnySucceeds(c, o);
      EnabledInOrder(c);
      return false, called;
    }
    var i := 0;
    while i < |ORDER|
      invariant 0 <= i <= |ORDER|
      invariant called == EnabledAmong(c, ORDER[..i])
      invariant forall j :: 0 <= j < |called| ==> !Succeeds(o, called[j])
    {
      var s := ORDER[i];
      if Enabled(c, s) {
        if Succeeds(o, s) {
          FirstSuccess(c, o, i, called);
          return true, called + [s];
        }
        EnabledStep(c, i);
        called := called + [s];
      } else {
        EnabledStep(c, i);
      }
      i := i + 1;
    }
    assert ORDER[..i] == ORDER;
    NoneSucceeds(c, o, called);
    return false, called;
  }

  /** One more vendor of the order adds it to the enabled list exactly when it is enabled. */
  lemma EnabledStep(c: Config, i: nat)
    requires i < |ORDER|
    ensures EnabledAmong(c, ORDER[..i + 1])
            == EnabledAmong(c, ORDER[..i]) + (if Enabled(c, ORDER[i]) then [ORDER[i]] else [])
  {
    assert ORDER[..i + 1][..i] == ORDER[..i];
  }

  /** The first enabled vendor that delivers ends the chain: the message went out, the
      vendors called are a prefix of the enabled ones, and only the last of them delivered. */
  lemma FirstSuccess(c: Config, o: Outcomes, i: nat, failed: seq<Service>)
    requires i < |ORDER| && Enabled(c, ORDER[i]) && Succeeds(o, ORDER[i])
    requires failed == EnabledAmong(c, ORDER[..i])
    requires forall j :: 0 <= j < |failed| ==> !Succeeds(o, failed[j])
    ensures AnySucceeds(c, o)
    ensures failed + [ORDER[i]] <= EnabledAmong(c, ORDER)
    ensures Succeeds(o, (failed + [ORDER[i]])[|failed|])
    ensures forall j :: 0 <= j < |failed| ==> !Succeeds(o, (failed + [ORDER[i]])[j])
  {
    EnabledStep(c, i);
    PrefixOfEnabled(c, i + 1);
  }

  lemma NoneSucceeds(c: Config, o: Outcomes, called: seq<Service>)
    requires called == EnabledAmong(c, ORDER)
    requires forall j :: 0 <= j < |called| ==> !Succeeds(o, called[j])
    ensures !AnySucceeds(c, o)
  {
    EnabledAmongMembers(c, ORDER);
    forall s | Enabled(c, s)
      ensures !Succeeds(o, s)
    {
      InOrder(s);
    }
  }

  /** Filtering a prefix of the order gives a prefix of the filtered order. */
  lemma PrefixOfEnabled(c: Config, i: nat)
    requires i <= |ORDER|
    ensures EnabledAmong(c, ORDER[..i]) <= EnabledAmong(c, ORDER)
  {
    EnabledInOrder(c);
    if i == 0 {
      assert ORDER[..0] == [];
    } else if i == 3 {
      assert ORDER[..3] == ORDER;
    }
  }

  /** The self-test: every enabled service is sent a test message, a disabled one reports
      false, and `overall` is whether any of them delivered. */
  method TestServices(c: Config, o: Outcomes) returns (results: TestResults, called: seq<Service>)
    ensures called == EnabledAmong(c, ORDER)
    ensures forall s :: Enabled(c, s) ==> s in called
    ensures results.resend == (c.resend && o.resend)
    ensures results.sendgrid == (c.sendgrid && o.sendgrid)
    ensures results.mailgun == (c.mailgun && o.mailgun)
    ensures results.overall <==> AnySucceeds(c, o)
  {
    results := TestResults(false, false, false, false);
    called := [];
    if c.resend {
      results := results.(resend := o.resend);
      called := called + [Resend];
    }
    if c.sendgrid {
      results := results.(sendgrid := o.sendgrid);
      called := called + [SendGrid];
    }
    if c.mailgun {
      results := results.(mailgun := o.mailgun);
      called := called + [Mailgun];
    }
    results := results.(overall := results.resend || results.sendgrid || results.mailgun);
    EnabledInOrder(c);
    EnabledAmongMembers(c, ORDER);
    forall s | Enabled(c, s)
      ensures s in called
    {
      InOrder(s);
    }
    if results.overall {
      if o.resend && c.resend {
        assert Enabled(c, Resend) && Succeeds(o, Resend);
      } else if o.sendgrid && c.sendgrid {
        assert Enabled(c, SendGrid) && Succeeds(o, SendGrid);
      } else {
        assert Enabled(c, Mailgun) && Succeeds(o, Mailgun);
      }
    }
  }

  /** A service that is not configured is never asked to send. */
  lemma DisabledNeverCalled(c: Config, s: Service)
    requires !Enabled(c, s)
    ensures s !in EnabledAmong(c, ORDER)
  {
    EnabledAmongMembers(c, ORDER);
  }
}
