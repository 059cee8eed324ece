/**
 * Access-policy resolution and the authorization decision. The HTTP client,
 * the CI service's team lookup and the Rego engine are collaborators given as
 * functions; what remains is the fallback between the project-level and the
 * organisation-level policy and the fixed order in which `Check` decides.
 */
module Policy {
  import opened Wrappers
  import opened Strings

  // ---------------------------------------------------------------------------
  // HTTP collaborators
  // ---------------------------------------------------------------------------

  /** A GET request: its URL and its `Authorization` header. */
  datatype Request = Request(url: string, authorization: string)

  /** A response body, or a body whose reading failed. */
  datatype Body = Text(content: string) | Unreadable

  /** What the HTTP client makes of a request: a response, or a failure to build or send it. */
  datatype Fetch = Responded(statusCode: int, body: Body) | RequestFailed(message: string)

  type HttpClient = Request -> Fetch

  datatype Error =
    | External(message: string)                                           // from the HTTP client, the CI service or the Rego engine
    | UnexpectedOrganisationResponse(content: string, statusCode: int)    // organisation level answered neither 200 nor 404
    | UnexpectedProjectResponse(content: string, statusCode: int)         // project level answered neither 200 nor 404
    | NoResultFound
    | DecisionNotBoolean

  /** A policy fetch: the body text with the status code, or the error that stopped it. */
  datatype Fetched = Fetched(content: string, statusCode: int) | FetchFailed(err: Error)

  /**
   * Reading a fetch: only a failed request is an error. Every response, whatever
   * its status, keeps its status code, and a body that cannot be read counts as
   * an empty body rather than as an error.
   */
  function ReadAll(f: Fetch): (r: Fetched)
    ensures r.FetchFailed? <==> f.RequestFailed?
    ensures f.RequestFailed? ==> r.err == External(f.message)
    ensures f.Responded? ==> r.statusCode == f.statusCode
    ensures f.Responded? && f.body.Text? ==> r.content == f.body.content
    ensures f.Responded? && f.body.Unreadable? ==> r.content == ""
  {
    match f
    case RequestFailed(message) => FetchFailed(External(message))
    case Responded(code, Text(content)) => Fetched(content, code)
    case Responded(code, Unreadable) => Fetched("", code)
  }

  /** The result of `GetPolicy`: the policy text (empty when there is none) and an optional error. */
  datatype PolicyLookup = PolicyLookup(policy: string, err: Option<Error>)

  // ---------------------------------------------------------------------------
  // DiggerHttpPolicyProvider
  // ---------------------------------------------------------------------------

  datatype DiggerHttpPolicyProvider = DiggerHttpPolicyProvider(
    diggerHost: string,
    diggerOrganisation: string,
    authToken: string,
    httpClient: HttpClient)
  {
    /** The organisation-level policy resource, asked for with the bearer token. */
    function OrganisationPolicyRequest(): (r: Request)
      ensures r.authorization == "Bearer " + authToken
      ensures r.url == diggerHost + "/orgs/" + diggerOrganisation + "/access-policy"
    {
      Request(diggerHost + "/orgs/" + diggerOrganisation + "/access-policy", "Bearer " + authToken)
    }

    /**
     * The project-level policy resource, asked for with the bearer token. The
     * namespace goes into the path, character for character, with every `/`
     * replaced by `-`, so the path segment it fills holds no `/`.
     */
    function ProjectPolicyRequest(namespace: string, projectName: string): (r: Request)
      ensures r.authorization == "Bearer " + authToken
      ensures var prefix := diggerHost + "/repos/";
        && |prefix| + |namespace| <= |r.url|
        && r.url[..|prefix|] == prefix
        && (forall i | 0 <= i < |namespace| ::
              r.url[|prefix| + i] == (if namespace[i] == '/' then '-' else namespace[i]))
        && '/' !in r.url[|prefix|..|prefix| + |namespace|]
        && r.url[|prefix| + |namespace|..] == "/projects/" + projectName + "/access-policy"
    {
      Request(diggerHost + "/repos/" + ReplaceAll(namespace, '/', '-') + "/projects/" + projectName + "/access-policy",
              "Bearer " + authToken)
    }

    /** The organisation-level fetch: an error, the client's own, only when the request fails; a response keeps its status. */
    function GetPolicyForOrganisation(): (r: Fetched)
      ensures var f := httpClient(OrganisationPolicyRequest());
        && (r.FetchFailed? <==> f.RequestFailed?)
        && (f.RequestFailed? ==> r.err == External(f.message))
        && (f.Responded? ==> r.statusCode == f.statusCode)
        && (f.Responded? && f.body.Text? ==> r.content == f.body.content)
        && (f.Responded? && f.body.Unreadable? ==> r.content == "")
    {
      ReadAll(httpClient(OrganisationPolicyRequest()))
    }

    /** The project-level fetch: an error, the client's own, only when the request fails; a response keeps its status. */
    function GetPolicyForNamespace(namespace: string, projectName: string): (r: Fetched)
      ensures var f := httpClient(ProjectPolicyRequest(namespace, projectName));
        && (r.FetchFailed? <==> f.RequestFailed?)
        && (f.RequestFailed? ==> r.err == External(f.message))
        && (f.Responded? ==> r.statusCode == f.statusCode)
        && (f.Responded? && f.body.Text? ==> r.content == f.body.content)
        && (f.Responded? && f.body.Unreadable? ==> r.content == "")
    {
      ReadAll(httpClient(ProjectPolicyRequest(namespace, projectName)))
    }

    /**
     * The project's policy when the project level has one (200); otherwise,
     * when the project level has none (404), the organisation's policy (200)
     * or the empty policy (404). Any other status, or a failed request, at
     * either level is an error and never yields a policy.
     */
    function GetPolicy(namespace: string, projectName: string): (r: PolicyLookup)
      ensures r.err.Some? ==> r.policy == ""
      ensures var project := GetPolicyForNamespace(namespace, projectName);
        var organisation := GetPolicyForOrganisation();
        r.err.None? <==>
          (project.Fetched? && project.statusCode == 200) ||
          (project.Fetched? && project.statusCode == 404 && organisation.Fetched? && organisation.statusCode in {200, 404})
      ensures var project := GetPolicyForNamespace(namespace, projectName);
        var organisation := GetPolicyForOrganisation();
        && (project.FetchFailed? ==> r.err == Some(project.err))
        && (project.Fetched? && project.statusCode == 200 ==> r.policy == project.content)
        && (project.Fetched? && project.statusCode !in {200, 404} ==>
              r.err == Some(UnexpectedProjectResponse(project.content, project.statusCode)))
        && (project.Fetched? && project.statusCode == 404 ==>
              && (organisation.FetchFailed? ==> r.err == Some(organisation.err))
              && (organisation.Fetched? && organisation.statusCode == 200 ==> r.policy == organisation.content)
              && (organisation.Fetched? && organisation.statusCode == 404 ==> r == PolicyLookup("", None))
              && (organisation.Fetched? && organisation.statusCode !in {200, 404} ==>
                    r.err == Some(UnexpectedOrganisationResponse(organisation.content, organisation.statusCode))))
    {
      match GetPolicyForNamespace(namespace, projectName)
      case FetchFailed(err) => PolicyLookup("", Some(err))
      case Fetched(content, code) =>
        if code == 200 then PolicyLookup(content, None)
        else if code == 404 then
          match GetPolicyForOrganisation()
          case FetchFailed(err) => PolicyLookup("", Some(err))
          case Fetched(orgContent, orgCode) =>
            if orgCode == 200 then PolicyLookup(orgContent, None)
            else if orgCode == 404 then PolicyLookup("", None)
            else PolicyLookup("", Some(UnexpectedOrganisationResponse(orgContent, orgCode)))
        else PolicyLookup("", Some(UnexpectedProjectResponse(content, code)))
    }
  }

  /**
   * The fallback asks for a different resource: the organisation request and
   * the project request never share a URL, whatever the namespace and project.
   */
  lemma OrganisationAndProjectRequestsDiffer(p: DiggerHttpPolicyProvider, namespace: string, projectName: string)
    ensures p.OrganisationPolicyRequest().url != p.ProjectPolicyRequest(namespace, projectName).url
  {
    var n := |p.diggerHost|;
    assert p.OrganisationPolicyRequest().url[n + 1] == 'o';
    assert p.ProjectPolicyRequest(namespace, projectName).url[..n + 7][n + 1] == 'r';
  }

  /**
   * When the project level answers 200 the organisation level is never
   * consulted: any client that answers the project request the same way
   * yields the same lookup, whatever it answers for the organisation.
   */
  lemma ProjectPolicyShadowsOrganisation(p: DiggerHttpPolicyProvider, other: HttpClient, namespace: string, projectName: string)
    requires p.httpClient(p.ProjectPolicyRequest(namespace, projectName)).Responded?
    requires p.httpClient(p.ProjectPolicyRequest(namespace, projectName)).statusCode == 200
    requires other(p.ProjectPolicyRequest(namespace, projectName)) == p.httpClient(p.ProjectPolicyRequest(namespace, projectName))
    ensures p.(httpClient := other).GetPolicy(namespace, projectName) == p.GetPolicy(namespace, projectName)
    ensures p.GetPolicy(namespace, projectName).err.None?
  {
    var q := p.(httpClient := other);
    assert q.ProjectPolicyRequest(namespace, projectName) == p.ProjectPolicyRequest(namespace, projectName);
  }

  /** A request that cannot be built or sent at the project level is reported with the client's own error. */
  lemma ProjectRequestFailureIsReported(p: DiggerHttpPolicyProvider, namespace: string, projectName: string, message: string)
    requires p.httpClient(p.ProjectPolicyRequest(namespace, projectName)) == RequestFailed(message)
    ensures p.GetPolicy(namespace, projectName) == PolicyLookup("", Some(External(message)))
  {
  }

  /** After a project-level 404, a failed organisation-level request is reported with the client's own error. */
  lemma OrganisationRequestFailureIsReported(p: DiggerHttpPolicyProvider, namespace: string, projectName: string,
                                             body: Body, message: string)
    requires p.httpClient(p.ProjectPolicyRequest(namespace, projectName)) == Responded(404, body)
    requires p.httpClient(p.OrganisationPolicyRequest()) == RequestFailed(message)
    ensures p.GetPolicy(namespace, projectName) == PolicyLookup("", Some(External(message)))
  {
  }

  /** A found policy whose body cannot be read is indistinguishable from no policy at all. */
  lemma UnreadablePolicyIsEmpty(p: DiggerHttpPolicyProvider, namespace: string, projectName: string)
    requires p.httpClient(p.ProjectPolicyRequest(namespace, projectName)) == Responded(200, Unreadable)
    ensures p.GetPolicy(namespace, projectName) == PolicyLookup("", None)
  {
  }

  // ---------------------------------------------------------------------------
  // Policy evaluation collaborators
  // ---------------------------------------------------------------------------

  /** The value of one expression of a Rego result. */
  datatype Value = Bool(b: bool) | NonBool(text: string)

  /** The facts a policy is evaluated against. */
  datatype PolicyInput = PolicyInput(user: string, organisation: string, teams: seq<string>, action: string, project: string)

  /**
   * The Rego engine for the query `data.digger.allow`: preparing a policy module
   * may fail with a message; evaluating it yields a list of results, each a
   * list of expression values.
   */
  datatype RegoEngine = RegoEngine(
    prepareForEval: string -> Option<string>,
    eval: (string, PolicyInput) -> seq<seq<Value>>)

  /** The CI service's team lookup for (organisation, user). */
  datatype CIService = CIService(getUserTeams: (string, string) -> Result<seq<string>, string>)

  /** An authorization answer: allowed or not, with an optional error. */
  datatype Decision = Decision(allowed: bool, err: Option<Error>)

  /**
   * The verdict of a list of expression values scanned in order: the first
   * value that is not `true` decides, a non-boolean with an error and `false`
   * with a plain denial; when there is none the command is allowed.
   */
  function ExpressionVerdict(expressions: seq<Value>): (d: Decision)
    ensures d.allowed <==> forall i | 0 <= i < |expressions| :: expressions[i] == Bool(true)
    ensures d.err.Some? <==> exists k | 0 <= k < |expressions| ::
        expressions[k].NonBool? && forall j | 0 <= j < k :: expressions[j] == Bool(true)
    ensures d.err.Some? ==> d.err == Some(DecisionNotBoolean)
  {
    if |expressions| == 0 then Decision(true, None)
    else
      match expressions[0]
      case NonBool(_) =>
        assert expressions[0].NonBool?;
        Decision(false, Some(DecisionNotBoolean))
      case Bool(decision) =>
        if !decision then
          Decision(false, None)
        else
          var d := ExpressionVerdict(expressions[1..]);
          assert forall k | 1 <= k < |expressions| :: expressions[k] == expressions[1..][k - 1];
          d
  }

  /** The first `false`, reached before any non-boolean, denies without error. */
  lemma FirstFalseDenies(expressions: seq<Value>, k: int)
    requires 0 <= k < |expressions| && expressions[k] == Bool(false)
    requires forall j | 0 <= j < k :: expressions[j] == Bool(true)
    ensures ExpressionVerdict(expressions) == Decision(false, None)
  {
    assert expressions[k] != Bool(true);
    forall k' | 0 <= k' < |expressions| && expressions[k'].NonBool?
      ensures exists j | 0 <= j < k' :: expressions[j] != Bool(true)
    {
      assert k < k';
    }
  }

  /** The first value that is not `true`, when it is not a boolean, denies with an error. */
  lemma FirstNonBooleanIsError(expressions: seq<Value>, k: int)
    requires 0 <= k < |expressions| && expressions[k].NonBool?
    requires forall j | 0 <= j < k :: expressions[j] == Bool(true)
    ensures ExpressionVerdict(expressions) == Decision(false, Some(DecisionNotBoolean))
  {
    assert expressions[k] != Bool(true);
  }

  // ---------------------------------------------------------------------------
  // Checkers
  // ---------------------------------------------------------------------------

  /** The checker used when no policy service is configured. */
  datatype NoOpPolicyChecker = NoOpPolicyChecker
  {
    /** Allows every command for every user, without error. */
    function Check(scmOrganisation: string, namespace: string, projectName: string, command: string, requestedBy: string): (d: Decision)
      ensures d.allowed && d.err.None?
    {
      Decision(true, None)
    }
  }

  datatype DiggerPolicyChecker = DiggerPolicyChecker(policyProvider: DiggerHttpPolicyProvider, ciService: CIService)
  {
    function Facts(teams: seq<string>, projectName: string, command: string, requestedBy: string): PolicyInput
    {
      PolicyInput(requestedBy, policyProvider.diggerOrganisation, teams, command, projectName)
    }

    /**
     * The decision `Check` reaches, case by case: a failed team lookup denies
     * with its error; an empty policy text allows; a policy that does not
     * prepare denies with the engine's error; no result denies with an error;
     * otherwise the expressions of the first result decide. The error of the
     * policy lookup itself plays no part.
     */
    function Authorize(engine: RegoEngine, githubOrganisation: string, namespace: string, projectName: string,
                       command: string, requestedBy: string): (d: Decision)
      ensures d.allowed ==> d.err.None?
      ensures var policy := policyProvider.GetPolicy(namespace, projectName).policy;
        var teams := ciService.getUserTeams(githubOrganisation, requestedBy);
        d.allowed <==>
          teams.Success? &&
          (policy == "" ||
           (engine.prepareForEval(policy).None? &&
            var results := engine.eval(policy, Facts(teams.value, projectName, command, requestedBy));
            |results| > 0 && |results[0]| > 0 &&
            forall i | 0 <= i < |results[0]| :: results[0][i] == Bool(true)))
      ensures var teams := ciService.getUserTeams(githubOrganisation, requestedBy);
        teams.Failure? ==> d == Decision(false, Some(External(teams.error)))
      ensures var policy := policyProvider.GetPolicy(namespace, projectName).policy;
        var teams := ciService.getUserTeams(githubOrganisation, requestedBy);
        teams.Success? ==>
          && (policy == "" ==> d == Decision(true, None))
          && (policy != "" && engine.prepareForEval(policy).Some? ==>
                d == Decision(false, Some(External(engine.prepareForEval(policy).value))))
          && (policy != "" && engine.prepareForEval(policy).None? ==>
                var results := engine.eval(policy, Facts(teams.value, projectName, command, requestedBy));
                && (|results| == 0 || |results[0]| == 0 ==> d == Decision(false, Some(NoResultFound)))
                && (|results| > 0 && |results[0]| > 0 ==> d == ExpressionVerdict(results[0])))
    {
      var policy := policyProvider.GetPolicy(namespace, projectName).policy;
      match ciService.getUserTeams(githubOrganisation, requestedBy)
      case Failure(message) => Decision(false, Some(External(message)))
      case Success(teams) =>
        if policy == "" then Decision(true, None)
        else
          match engine.prepareForEval(policy)
          case Some(message) => Decision(false, Some(External(message)))
          case None =>
            var results := engine.eval(policy, Facts(teams, projectName, command, requestedBy));
            if |results| == 0 || |results[0]| == 0 then Decision(false, Some(NoResultFound))
            else ExpressionVerdict(results[0])
    }

    /**
     * `Authorize` with the evidently intended handling of a failed policy
     * lookup: the lookup's error denies instead of reading as "no policy".
     */
    function AuthorizeFailClosed(engine: RegoEngine, githubOrganisation: string, namespace: string, projectName: string,
                                 command: string, requestedBy: string): (d: Decision)
      ensures var lookup := policyProvider.GetPolicy(namespace, projectName);
        lookup.err.Some? ==> d == Decision(false, lookup.err)
      ensures d.allowed ==> d.err.None? && policyProvider.GetPolicy(namespace, projectName).err.None?
    {
      var lookup := policyProvider.GetPolicy(namespace, projectName);
      if lookup.err.Some? then Decision(false, lookup.err)
      else Authorize(engine, githubOrganisation, namespace, projectName, command, requestedBy)
    }

    /** Decides whether `requestedBy` may run `command` on the project; the scan stops at the first value that is not `true`. */
    method Check(engine: RegoEngine, githubOrganisation: string, namespace: string, projectName: string,
                 command: string, requestedBy: string) returns (allowed: bool, err: Option<Error>)
      ensures Decision(allowed, err) == Authorize(engine, githubOrganisation, namespace, projectName, command, requestedBy)
    {
      var organisation := policyProvider.diggerOrganisation;
      var policy := policyProvider.GetPolicy(namespace, projectName).policy;
      var teams := ciService.getUserTeams(githubOrganisation, requestedBy);
      if teams.Failure? {
        return false, Some(External(teams.error));
      }
      var input := PolicyInput(requestedBy, organisation, teams.value, command, projectName);
      if policy == "" {
        return true, None;
      }
      var prepared := engine.prepareForEval(policy);
      if prepared.Some? {
        return false, Some(External(prepared.value));
      }
      var results := engine.eval(policy, input);
      if |results| == 0 || |results[0]| == 0 {
        return false, Some(NoResultFound);
      }
      var expressions := results[0];
      for i := 0 to |expressions|
        invariant forall j | 0 <= j < i :: expressions[j] == Bool(true)
      {
        match expressions[i]
        case NonBool(_) =>
          FirstNonBooleanIsError(expressions, i);
          return false, Some(DecisionNotBoolean);
        case Bool(decision) =>
          if !decision {
            FirstFalseDenies(expressions, i);
            return false, None;
          }
      }
      return true, None;
    }
  }

  /**
   * The policy lookup's error is discarded: when the lookup fails (a 500 from
   * the project level, say) and the team lookup succeeds, the lookup's empty
   * policy text reads as "no policy" and the command is allowed.
   */
  lemma LookupErrorAllows(c: DiggerPolicyChecker, engine: RegoEngine, githubOrganisation: string, namespace: string,
                          projectName: string, command: string, requestedBy: string)
    requires c.policyProvider.GetPolicy(namespace, projectName).err.Some?
    requires c.ciService.getUserTeams(githubOrganisation, requestedBy).Success?
    ensures c.Authorize(engine, githubOrganisation, namespace, projectName, command, requestedBy) == Decision(true, None)
  {
  }

  /** Where the policy lookup succeeds, the corrected decision is the original one. */
  lemma FailClosedAgreesOnSuccessfulLookup(c: DiggerPolicyChecker, engine: RegoEngine, githubOrganisation: string,
                                            namespace: string, projectName: string, command: string, requestedBy: string)
    requires c.policyProvider.GetPolicy(namespace, projectName).err.None?
    ensures c.AuthorizeFailClosed(engine, githubOrganisation, namespace, projectName, command, requestedBy)
         == c.Authorize(engine, githubOrganisation, namespace, projectName, command, requestedBy)
  {
  }
}
