/** The routes whose bodies may carry credentials and therefore never reach the idempotency store. */
module SecretRoutes {
  import opened Splitting

  const PROVIDERS := "/api/v1/providers/"
  const SECRET_POSTS := {
    "/api/v1/providers",
    "/api/v1/provider-models/discover",
    "/api/v1/providers/mlx-audio/models",
    "/api/v1/secrets/unlock",
    "/api/v1/settings/lan/tokens"
  }
  const ACTIONS := {"load-model", "unload-model", "switch-model"}

  type UuidParser = string -> bool

  predicate IsSecretBearing(isUuid: UuidParser, verb: string, path: string) {
    if (verb == "POST" && path in SECRET_POSTS) || (verb == "PUT" && path == "/api/v1/settings/lan/password") then true
    else if verb == "PATCH" then
      PROVIDERS <= path
      && var id := path[|PROVIDERS|..]; id != "" && '/' !in id && isUuid(id)
    else IsModelRoute(isUuid, verb, path)
  }

  /** A provider's model collection, or one of the actions on its models. */
  predicate IsModelRoute(isUuid: UuidParser, verb: string, path: string) {
    PROVIDERS <= path
    && var segments := Split(path[|PROVIDERS|..], '/');
       && |segments| >= 2 && isUuid(segments[0])
       && (|| (verb in {"POST", "DELETE"} && segments[1..] == ["models"])
           || (verb == "POST" && |segments| == 3 && segments[1] == "actions" && segments[2] in ACTIONS))
  }

  /** The route with its parts in place: nothing before, between or after them. */
  predicate IsModelPath(id: string, verb: string, path: string) {
    || (verb in {"POST", "DELETE"} && path == PROVIDERS + (id + ['/'] + "models"))
    || (verb == "POST" && exists action ::
          action in ACTIONS && path == PROVIDERS + (id + ['/'] + ("actions" + ['/'] + action)))
  }

  lemma {:induction false} TwoSegments(first: string, second: string)
    requires '/' !in first && '/' !in second
    ensures Split(first + ['/'] + second, '/') == [first, second]
  {
    SplitFirst(first, second, '/');
    SplitNone(second, '/');
    assert [first] + [second] == [first, second];
  }

  lemma {:induction false} ThreeSegments(first: string, second: string, third: string)
    requires '/' !in first && '/' !in second && '/' !in third
    ensures Split(first + ['/'] + (second + ['/'] + third), '/') == [first, second, third]
  {
    SplitFirst(first, second + ['/'] + third, '/');
    TwoSegments(second, third);
    assert [first] + [second, third] == [first, second, third];
  }

  lemma {:induction false} JoinedTwo(segments: seq<string>)
    requires |segments| == 2
    ensures Joined(segments, '/') == segments[0] + ['/'] + segments[1]
  {
  }

  lemma {:induction false} JoinedThree(segments: seq<string>)
    requires |segments| == 3
    ensures Joined(segments, '/') == segments[0] + ['/'] + (segments[1] + ['/'] + segments[2])
  {
    JoinedTwo(segments[1..]);
  }

  lemma ModelPathIsRoute(isUuid: UuidParser, id: string, verb: string, path: string)
    requires isUuid(id) && '/' !in id && IsModelPath(id, verb, path)
    ensures IsModelRoute(isUuid, verb, path)
  {
    if verb in {"POST", "DELETE"} && path == PROVIDERS + (id + ['/'] + "models") {
      TwoSegments(id, "models");
      assert path[|PROVIDERS|..] == id + ['/'] + "models";
    } else {
      var action :| action in ACTIONS && path == PROVIDERS + (id + ['/'] + ("actions" + ['/'] + action));
      ThreeSegments(id, "actions", action);
      assert path[|PROVIDERS|..] == id + ['/'] + ("actions" + ['/'] + action);
    }
  }

  /** Cutting a path at its slashes recognizes exactly the paths made of a provider's identifier and the
      fixed parts: no longer path, no other method, no identifier that is not one. */
  lemma ModelRoutesAreExact(isUuid: UuidParser, verb: string, path: string)
    ensures IsModelRoute(isUuid, verb, path) <==> exists id :: isUuid(id) && '/' !in id && IsModelPath(id, verb, path)
  {
    if IsModelRoute(isUuid, verb, path) {
      var rest := path[|PROVIDERS|..];
      var segments := Split(rest, '/');
      SplitRoundTrip(rest, '/');
      assert path == PROVIDERS + rest;
      if |segments| == 2 {
        assert segments[1..] == [segments[1]];
        JoinedTwo(segments);
      } else {
        assert |segments| == 3;
        JoinedThree(segments);
      }
      assert '/' !in segments[0] && IsModelPath(segments[0], verb, path);
    }
    forall id | isUuid(id) && '/' !in id && IsModelPath(id, verb, path)
      ensures IsModelRoute(isUuid, verb, path)
    {
      ModelPathIsRoute(isUuid, id, verb, path);
    }
  }

  /** The requests of one provider whose bodies may name or carry a secret. */
  predicate ProviderSecret(id: string, verb: string, path: string) {
    || (verb == "PATCH" && id != "" && path == "/api/v1/providers/" + id)
    || ((verb == "POST" || verb == "DELETE") && path == "/api/v1/providers/" + (id + "/models"))
    || (verb == "POST"
        && (|| path == "/api/v1/providers/" + (id + "/actions/load-model")
            || path == "/api/v1/providers/" + (id + "/actions/unload-model")
            || path == "/api/v1/providers/" + (id + "/actions/switch-model")))
  }

  predicate FixedSecret(verb: string, path: string) {
    || (verb == "PUT" && path == "/api/v1/settings/lan/password")
    || (verb == "POST"
        && (|| path == "/api/v1/providers"
            || path == "/api/v1/provider-models/discover"
            || path == "/api/v1/providers/mlx-audio/models"
            || path == "/api/v1/secrets/unlock"
            || path == "/api/v1/settings/lan/tokens"))
  }

  lemma ModelPathIsSecret(id: string, verb: string, path: string)
    requires verb != "PATCH"
    ensures IsModelPath(id, verb, path) <==> ProviderSecret(id, verb, path)
  {
    assert id + ['/'] + "models" == id + "/models";
    forall action: string
      ensures id + ['/'] + ("actions" + ['/'] + action) == id + ("/actions/" + action)
    {
    }
    assert "/actions/" + "load-model" == "/actions/load-model";
    assert "/actions/" + "unload-model" == "/actions/unload-model";
    assert "/actions/" + "switch-model" == "/actions/switch-model";
  }

  /** A request bypasses the store as secret if and only if it is one of the fixed ones, or changes a provider
      or its models; nothing else does. */
  lemma SecretRoutesAreExact(isUuid: UuidParser, verb: string, path: string)
    ensures IsSecretBearing(isUuid, verb, path) <==>
              FixedSecret(verb, path) || exists id :: isUuid(id) && '/' !in id && ProviderSecret(id, verb, path)
  {
    if verb == "PATCH" {
      if IsSecretBearing(isUuid, verb, path) {
        var id := path[|PROVIDERS|..];
        assert path == PROVIDERS + id && ProviderSecret(id, verb, path);
      }
      forall id | isUuid(id) && '/' !in id && ProviderSecret(id, verb, path)
        ensures IsSecretBearing(isUuid, verb, path)
      {
        assert path[|PROVIDERS|..] == id;
      }
    } else {
      ModelRoutesAreExact(isUuid, verb, path);
      forall id
        ensures IsModelPath(id, verb, path) <==> ProviderSecret(id, verb, path)
      {
        ModelPathIsSecret(id, verb, path);
      }
    }
  }
}
