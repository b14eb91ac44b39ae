/** The login page, check_in/js/login.js: the redirect target of `goMain`,
    the stored-session auto redirect, the search for internal_key.js, the
    Supabase configuration fallback chain, the `init` prerequisite chain and
    the `doLogin` flow with its re-entry flag and storage writes. Script
    loads, fetch, the Supabase client and the storage quota are oracles. */
module Login {
  import opened Wrappers
  import opened Text
  import opened UriEncoding

  /* ---------------- redirect target ---------------- */

  const DefaultNext: string := "main.html"

  /** `u.searchParams.get('next') || 'main.html'`. */
  function NextUrl(next: Option<string>): (p: string)
    ensures p != ""
    ensures Truthy(next) ==> p == next.value
    ensures !Truthy(next) ==> p == DefaultNext
  {
    OrElse(next, DefaultNext)
  }

  /** `p.replace(/^\.\//, '')`: one leading "./" is removed. */
  function StripDotSlash(p: string): (r: string)
    ensures "./" <= p ==> p == "./" + r
    ensures !("./" <= p) ==> r == p
  {
    if "./" <= p then p[2..] else p
  }

  /** What `window.makeAccess` does: it is not a function, it returns a
      token, or it throws. */
  datatype TokenMaker = NoMaker | Made(token: string) | MakerThrows

  /** The URL `goMain` passes to `location.replace`. */
  function GoMainTarget(next: Option<string>, maker: TokenMaker): string {
    var path := "./" + StripDotSlash(NextUrl(next));
    if maker.Made? && maker.token != "" then path + "?token=" + Encode(maker.token)
    else path
  }

  /** The target is "./" followed by the next page with one leading "./"
      removed, and it is longer than that exactly when a non-empty token was
      made. */
  lemma GoMainTargetPath(next: Option<string>, maker: TokenMaker)
    ensures var path := "./" + StripDotSlash(NextUrl(next));
            && path <= GoMainTarget(next, maker)
            && (GoMainTarget(next, maker) == path <==> !(maker.Made? && maker.token != ""))
  {
    if maker.Made? && maker.token != "" {
      var path := "./" + StripDotSlash(NextUrl(next));
      assert |GoMainTarget(next, maker)| > |path|;
    }
  }

  /** A non-empty token is appended as `?token=` followed by a part that
      decodes back to the token and holds no '&', '#', '?' or '=', so it
      cannot add or cut off query parameters. */
  lemma GoMainTargetToken(next: Option<string>, maker: TokenMaker)
    requires maker.Made? && maker.token != ""
    ensures var path := "./" + StripDotSlash(NextUrl(next));
            var tail := GoMainTarget(next, maker)[|path| + 7..];
            && GoMainTarget(next, maker)[|path|..|path| + 7] == "?token="
            && Decode(tail) == Some(maker.token)
            && '&' !in tail && '#' !in tail && '?' !in tail && '=' !in tail
  {
    var path := "./" + StripDotSlash(NextUrl(next));
    var enc := Encode(maker.token);
    var url := path + "?token=" + enc;
    assert url[|path| + 7..] == enc;
    assert url[|path|..|path| + 7] == "?token=";
    DecodeEncode(maker.token);
    EncodeOmitsDelimiters(maker.token);
  }

  /* ---------------- stored session ---------------- */

  /** A row of the employee table as selected by `doLogin`; the permission
      columns are carried along unchanged. */
  datatype Employee = Employee(maNv: Option<string>, tenNv: Option<string>, admin: Option<bool>,
                               dongHang: Option<bool>, checkDon: Option<bool>, mapAccess: Option<bool>,
                               hoatDong: Option<bool>)

  /** The context stored under `nv_ctx`. */
  datatype Context = Context(maNv: string, tenNv: string, ts: int)

  /** A stored value, decoded: an employee record, a context record, or a
      plain string. */
  datatype Stored = StoredEmployee(e: Employee) | StoredContext(c: Context) | StoredText(s: string)

  /** `nv && nv.ma_nv && nv.hoat_dong === true` for `safeParse(LS.getItem('nv'))`. */
  predicate AutoRedirectDue(local: map<string, Stored>) {
    "nv" in local && local["nv"].StoredEmployee?
    && Truthy(local["nv"].e.maNv) && local["nv"].e.hoatDong == Some(true)
  }

  /** `autoRedirect`: the `goMain` target when a valid session is stored. */
  function AutoRedirect(local: map<string, Stored>, next: Option<string>, maker: TokenMaker)
    : (r: Option<string>)
    ensures r.Some? <==> AutoRedirectDue(local)
    ensures r.Some? ==> r.value == GoMainTarget(next, maker)
  {
    if AutoRedirectDue(local) then Some(GoMainTarget(next, maker)) else None
  }

  /* ---------------- internal_key.js ---------------- */

  /** The paths tried for internal_key.js, in order. */
  const ScriptPaths: seq<string> := ["js/internal_key.js", "../js/internal_key.js", "/js/internal_key.js"]

  /** How loading a script ends: it fails, or it loads and `getConfig` is
      or is not a function afterwards. */
  datatype LoadOutcome = LoadFails | LoadedWithoutConfig | LoadedWithConfig

  const Preloaded: string := "preloaded"

  /** A script path was found, or `getConfig` was already there. */
  predicate KeyScriptFound(preloaded: bool, loads: string -> LoadOutcome) {
    preloaded || exists i :: 0 <= i < |ScriptPaths| && loads(ScriptPaths[i]) == LoadedWithConfig
  }

  /** `ensureInternalKey`. */
  method EnsureInternalKey(preloaded: bool, loads: string -> LoadOutcome) returns (r: Option<string>)
    ensures preloaded ==> r == Some(Preloaded)
    ensures r.Some? <==> KeyScriptFound(preloaded, loads)
    ensures !preloaded && r.Some? ==>
              exists i :: 0 <= i < |ScriptPaths| && r.value == ScriptPaths[i]
                          && loads(ScriptPaths[i]) == LoadedWithConfig
                          && forall k :: 0 <= k < i ==> loads(ScriptPaths[k]) != LoadedWithConfig
  {
    if preloaded {
      return Some(Preloaded);
    }
    var i := 0;
    while i < |ScriptPaths|
      invariant 0 <= i <= |ScriptPaths|
      invariant forall k :: 0 <= k < i ==> loads(ScriptPaths[k]) != LoadedWithConfig
    {
      if loads(ScriptPaths[i]) == LoadedWithConfig {
        return Some(ScriptPaths[i]);
      }
      i := i + 1;
    }
    return None;
  }

  /* ---------------- configuration ---------------- */

  /** How `/api/getConfig` answers: the fetch throws or times out (or its
      JSON cannot be read), the status is not ok, or a JSON body with
      optional `url` and `anon`. */
  datatype ApiReply = ApiFails | ApiNotOk | ApiJson(url: Option<string>, anon: Option<string>)

  /** `window.getConfig`: absent, throwing, or answering 'url' and 'anon'. */
  datatype KeyLookup = NoGetConfig | GetConfigThrows | GetConfigValues(url: Option<string>, anon: Option<string>)

  /** `{ url, anon, source }` as `resolveConfig` returns it. */
  datatype Config = Config(url: Option<string>, anon: Option<string>, source: string)

  const SourceApi: string := "api/getConfig"
  const SourceGetConfig: string := "getConfig(key)"
  const SourceCodBase: string := "COD_BASE"

  predicate ApiAccepted(api: ApiReply) {
    api.ApiJson? && Truthy(api.url) && Truthy(api.anon)
  }

  predicate LookupAccepted(lookup: KeyLookup) {
    lookup.GetConfigValues? && Truthy(lookup.url) && Truthy(lookup.anon)
  }

  /** `a || b` over optional strings: one of the two, truthy exactly when
      one of them is. */
  function Or(a: Option<string>, b: Option<string>): (r: Option<string>)
    ensures Truthy(a) ==> r == a
    ensures !Truthy(a) ==> r == b
    ensures r == a || r == b
    ensures Truthy(r) <==> Truthy(a) || Truthy(b)
  {
    if Truthy(a) then a else b
  }

  /** The configuration the first accepting source gives; None when
      `getConfig` throws before any source has been accepted, which rejects
      `resolveConfig`. */
  function Resolved(api: ApiReply, lookup: KeyLookup, codUrl: Option<string>, codAnon: Option<string>)
    : Option<Config>
  {
    if ApiAccepted(api) then Some(Config(api.url, api.anon, SourceApi))
    else if lookup.GetConfigThrows? then None
    else if LookupAccepted(lookup) then Some(Config(lookup.url, lookup.anon, SourceGetConfig))
    else
      var source := if Truthy(codUrl) && Truthy(codAnon) then SourceCodBase else "";
      Some(Config(Or(codUrl, None), Or(codAnon, None), source))
  }

  /** A configuration names a source exactly when it has both a url and an
      anon key, and a source is one of the three. */
  lemma ResolvedSource(api: ApiReply, lookup: KeyLookup, codUrl: Option<string>, codAnon: Option<string>)
    ensures var r := Resolved(api, lookup, codUrl, codAnon);
            r.Some? ==> (r.value.source != "" <==> Truthy(r.value.url) && Truthy(r.value.anon))
    ensures var r := Resolved(api, lookup, codUrl, codAnon);
            r.Some? ==> r.value.source in {"", SourceApi, SourceGetConfig, SourceCodBase}
  {
  }

  /** Sources are tried in the order API, getConfig, COD_BASE and the first
      one that gives both values wins. */
  lemma ResolvedOrder(api: ApiReply, lookup: KeyLookup, codUrl: Option<string>, codAnon: Option<string>)
    ensures ApiAccepted(api) ==>
              Resolved(api, lookup, codUrl, codAnon) == Some(Config(api.url, api.anon, SourceApi))
    ensures !ApiAccepted(api) && LookupAccepted(lookup) ==>
              Resolved(api, lookup, codUrl, codAnon) == Some(Config(lookup.url, lookup.anon, SourceGetConfig))
    ensures !ApiAccepted(api) && lookup.GetConfigThrows? ==> Resolved(api, lookup, codUrl, codAnon).None?
    ensures !ApiAccepted(api) && !lookup.GetConfigThrows? && !LookupAccepted(lookup)
            && Truthy(codUrl) && Truthy(codAnon) ==>
              Resolved(api, lookup, codUrl, codAnon) == Some(Config(codUrl, codAnon, SourceCodBase))
  {
  }

  /** `resolveConfig`, assigning url, anon and source step by step. */
  method ResolveConfig(api: ApiReply, lookup: KeyLookup, codUrl: Option<string>, codAnon: Option<string>)
    returns (r: Option<Config>)
    ensures r == Resolved(api, lookup, codUrl, codAnon)
  {
    var url: Option<string> := None;
    var anon: Option<string> := None;
    var source := "";
    if api.ApiJson? && Truthy(api.url) && Truthy(api.anon) {
      url, anon, source := api.url, api.anon, SourceApi;
    }
    if !Truthy(url) || !Truthy(anon) {
      match lookup {
        case NoGetConfig =>
        case GetConfigThrows =>
          return None;
        case GetConfigValues(u1, a1) =>
          if Truthy(u1) && Truthy(a1) {
            url, anon, source := u1, a1, SourceGetConfig;
          }
      }
    }
    if !Truthy(url) || !Truthy(anon) {
      url := Or(codUrl, url);
      anon := Or(codAnon, anon);
      if Truthy(url) && Truthy(anon) && source == "" {
        source := SourceCodBase;
      }
    }
    return Some(Config(url, anon, source));
  }

  /* ---------------- the page ---------------- */

  /** `window.getInternalKey`: not a function, throwing, or giving a value
      (None for undefined or null). */
  datatype InternalKeyFn = NoKeyFn | KeyFnThrows | KeyFnGives(key: Option<string>)

  /** The `x-internal-key` header value: the key when it is non-empty. */
  function KeyHeader(keyFn: InternalKeyFn): (h: Option<string>)
    ensures h.Some? <==> keyFn.KeyFnGives? && Truthy(keyFn.key)
    ensures h.Some? ==> h == keyFn.key && h.value != ""
  {
    if keyFn.KeyFnGives? && Truthy(keyFn.key) then keyFn.key else None
  }

  /** The Supabase client: url, anon key and the `x-internal-key` header
      sent when `getInternalKey` gives a non-empty key. */
  datatype Client = Client(url: string, anon: string, internalKey: Option<string>)

  /** How the employee query ends. */
  datatype Reply = QueryError | NoRow | Row(e: Employee) | QueryThrew

  /** What pressing the login button did before the query. */
  datatype Begin = AlreadyLogging | NotReady | MissingInput | Started(ma: string, mk: string)

  /** How a started login ends. */
  datatype Outcome = QueryFailed | WrongCredentials | Inactive | StoreFailed | LoggedIn | Crashed

  class LoginPage {
    var supabase: Option<Client>
    var logging: bool
    var btnDisabled: bool
    var local: map<string, Stored>
    var session: map<string, Stored>
    /** The URLs passed to `location.replace`, oldest first. */
    var redirects: seq<string>

    constructor(local0: map<string, Stored>, session0: map<string, Stored>)
      ensures supabase == None && !logging && !btnDisabled
      ensures local == local0 && session == session0 && redirects == []
    {
      supabase := None;
      logging := false;
      btnDisabled := false;
      local := local0;
      session := session0;
      redirects := [];
    }

    /** `autoRedirect`, run when the script loads. */
    method AutoRedirectOnLoad(next: Option<string>, maker: TokenMaker)
      modifies this`redirects
      ensures AutoRedirectDue(local) ==> redirects == old(redirects) + [GoMainTarget(next, maker)]
      ensures !AutoRedirectDue(local) ==> redirects == old(redirects)
    {
      var r := AutoRedirect(local, next, maker);
      if r.Some? {
        redirects := redirects + [r.value];
      }
    }

    /** `init`: enable the button, then stop at the first missing
        prerequisite (internal key script, url and anon, the Supabase
        library) leaving the client unset; otherwise read the internal key
        and create the client. When `getInternalKey` throws, or `createClient`
        does (`createOk` false), `init` rejects and the client stays unset. */
    method Init(preloaded: bool, loads: string -> LoadOutcome, api: ApiReply, lookup: KeyLookup,
                codUrl: Option<string>, codAnon: Option<string>, libraryLoaded: bool,
                keyFn: InternalKeyFn, createOk: bool)
      modifies this`supabase, this`btnDisabled
      ensures !btnDisabled
      ensures var cfg := Resolved(api, lookup, codUrl, codAnon);
              var ready := KeyScriptFound(preloaded, loads) && cfg.Some?
                           && Truthy(cfg.value.url) && Truthy(cfg.value.anon) && libraryLoaded;
              var created := ready && !keyFn.KeyFnThrows? && createOk;
              && (created ==> supabase == Some(Client(cfg.value.url.value, cfg.value.anon.value,
                                                      KeyHeader(keyFn))))
              && (!created ==> supabase == old(supabase))
    {
      btnDisabled := false;
      var where := EnsureInternalKey(preloaded, loads);
      if where.None? {
        return;
      }
      var cfg := ResolveConfig(api, lookup, codUrl, codAnon);
      if cfg.None? {
        return;
      }
      if !Truthy(cfg.value.url) || !Truthy(cfg.value.anon) {
        return;
      }
      if !libraryLoaded {
        return;
      }
      if keyFn.KeyFnThrows? {
        return;
      }
      var header := KeyHeader(keyFn);
      if !createOk {
        return;
      }
      supabase := Some(Client(cfg.value.url.value, cfg.value.anon.value, header));
    }

    /** `doLogin` up to the query: nothing happens while a login is in
        progress, without a client, or when the trimmed code or password is
        empty; otherwise the flag is raised and the button disabled. */
    method BeginLogin(maInput: Option<string>, mkInput: Option<string>) returns (b: Begin)
      modifies this`logging, this`btnDisabled
      ensures old(logging) ==> b == AlreadyLogging
      ensures !old(logging) && supabase.None? ==> b == NotReady
      ensures var ma := Trim(OrElse(maInput, ""));
              var mk := Trim(OrElse(mkInput, ""));
              !old(logging) && supabase.Some? ==>
                b == (if ma == "" || mk == "" then MissingInput else Started(ma, mk))
      ensures b.Started? ==> logging && btnDisabled
      ensures !b.Started? ==> logging == old(logging) && btnDisabled == old(btnDisabled)
    {
      if logging {
        return AlreadyLogging;
      }
      if supabase.None? {
        return NotReady;
      }
      var ma := Trim(OrElse(maInput, ""));
      var mk := Trim(OrElse(mkInput, ""));
      if ma == "" || mk == "" {
        return MissingInput;
      }
      logging := true;
      btnDisabled := true;
      return Started(ma, mk);
    }

    /** `doLogin` after the query for code `ma`: an active row is stored
        under `nv` and `last_ma_nv` (local) and `nv_ctx` (session), then the
        page goes to the main page; `writesOk` is how many of those three
        writes succeed before one throws. Every path lowers the flag and
        re-enables the button. */
    method FinishLogin(ma: string, reply: Reply, writesOk: nat, now: int,
                       next: Option<string>, maker: TokenMaker) returns (o: Outcome)
      modifies this`logging, this`btnDisabled, this`local, this`session, this`redirects
      ensures !logging && !btnDisabled
      ensures o == (match reply
                    case QueryError => QueryFailed
                    case NoRow => WrongCredentials
                    case QueryThrew => Crashed
                    case Row(e) =>
                      if e.hoatDong != Some(true) then Inactive
                      else if writesOk < 3 then StoreFailed
                      else LoggedIn)
      ensures !(reply.Row? && reply.e.hoatDong == Some(true)) ==>
                local == old(local) && session == old(session) && redirects == old(redirects)
      ensures reply.Row? && reply.e.hoatDong == Some(true) ==>
                var e := reply.e;
                && local == (if writesOk == 0 then old(local)
                             else if writesOk == 1 then old(local)["nv" := StoredEmployee(e)]
                             else old(local)["nv" := StoredEmployee(e)]["last_ma_nv" := StoredText(ma)])
                && session == (if writesOk < 3 then old(session)
                               else old(session)["nv_ctx" := StoredContext(
                                      Context(OrElse(e.maNv, ""), OrElse(e.tenNv, ""), now))])
                && redirects == old(redirects) + (if writesOk < 3 then [] else [GoMainTarget(next, maker)])
    {
      match reply {
        case QueryError =>
          o := QueryFailed;
        case NoRow =>
          o := WrongCredentials;
        case QueryThrew =>
          o := Crashed;
        case Row(e) =>
          if e.hoatDong != Some(true) {
            o := Inactive;
          } else if writesOk == 0 {
            o := StoreFailed;
          } else {
            local := local["nv" := StoredEmployee(e)];
            if writesOk == 1 {
              o := StoreFailed;
            } else {
              local := local["last_ma_nv" := StoredText(ma)];
              if writesOk == 2 {
                o := StoreFailed;
              } else {
                session := session["nv_ctx" := StoredContext(Context(OrElse(e.maNv, ""), OrElse(e.tenNv, ""), now))];
                redirects := redirects + [GoMainTarget(next, maker)];
                o := LoggedIn;
              }
            }
          }
      }
      logging := false;
      btnDisabled := false;
    }
  }

  /** A login whose row has a non-empty code is remembered: the stored
      session makes the next page load redirect. */
  lemma StoredLoginRedirects(local: map<string, Stored>, e: Employee)
    requires e.hoatDong == Some(true)
    ensures AutoRedirectDue(local["nv" := StoredEmployee(e)]) <==> Truthy(e.maNv)
  {
  }
}
