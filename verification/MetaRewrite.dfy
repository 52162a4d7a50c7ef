/**
  The rewrites of a request's metadata before it is routed. The metadata is held twice,
  embedded in the encoded request and beside it, and the two copies must stay equal.
*/
module MetaRewrite {

  import opened Wrappers

  // ----- Requests -----

  datatype Identity = Identity(remote: string, privateKeyPath: string)

  datatype TransportOptions = TransportOptions(defaultIdentity: Option<string>, remoteIdentities: seq<Identity>,
    others: string)

  datatype Policy = Policy(concurrency: Option<int>, maxConnectionsPerHost: Option<int>, others: string)

  datatype RequestMeta = RequestMeta(transport: Option<TransportOptions>, policy: Option<Policy>, others: string)

  /** A CBOR value: a map keyed by field numbers, the encoding of a `RequestMeta`, or anything else. */
  datatype Cbor = CborMap(fields: seq<(int, Cbor)>) | CborMeta(meta: RequestMeta) | CborOther(value: string)

  /** Bytes, known by the value they decode to, if any, and by which of its spellings they are. */
  datatype Bytes = Bytes(decoded: Option<Cbor>, spelling: nat)

  function Encode(value: Cbor): Bytes {
    Bytes(Some(value), 0)
  }

  /** A file-system path as the operating system gives it; only UTF-8 paths have text. */
  datatype OsPath = Utf8(text: string) | NotUtf8(absolute: bool)

  const DEFAULT_CONCURRENCY := 50
  const DEFAULT_MAX_PER_HOST := 8
  const META_KEY := 1

  datatype State = State(bytes: Bytes, meta: RequestMeta)

  // ----- The rewrites on values -----

  function FirstKey(fields: seq<(int, Cbor)>, key: int): (k: nat)
    ensures k <= |fields|
    ensures k < |fields| ==> fields[k].0 == key
    ensures forall i :: 0 <= i < k ==> fields[i].0 != key
  {
    if |fields| == 0 || fields[0].0 == key then 0 else 1 + FirstKey(fields[1..], key)
  }

  /** The request decodes to a map that has a metadata field. */
  predicate HasMetaField(bytes: Bytes) {
    && bytes.decoded.Some? && bytes.decoded.value.CborMap?
    && FirstKey(bytes.decoded.value.fields, META_KEY) < |bytes.decoded.value.fields|
  }

  function Embedded(bytes: Bytes): Cbor
    requires HasMetaField(bytes)
  {
    var fields := bytes.decoded.value.fields;
    fields[FirstKey(fields, META_KEY)].1
  }

  function Rewritten(state: State, resolved: RequestMeta): State {
    if !HasMetaField(state.bytes) then state
    else
      var fields := state.bytes.decoded.value.fields;
      var k := FirstKey(fields, META_KEY);
      State(Encode(CborMap(fields[k := (fields[k].0, CborMeta(resolved))])), resolved)
  }

  predicate IsAbsolute(path: OsPath) {
    match path
    case Utf8(text) => text != "" && text[0] == '/'
    case NotUtf8(absolute) => absolute
  }

  /** Joining an absolute path replaces the base; joining an empty one leaves a trailing separator. */
  function Join(base: OsPath, rest: string): Option<string> {
    if rest != "" && rest[0] == '/' then Some(rest)
    else
      match base
      case NotUtf8(_) => None
      case Utf8(text) => Some(if text != "" && text[|text| - 1] == '/' then text + rest else text + "/" + rest)
  }

  function HomeRelative(path: string): Option<string> {
    if path == "~" then Some("")
    else if "~/" <= path then Some(path[2..])
    else None
  }

  /** What a path is resolved to, if it is one the host resolves. */
  function Resolve(home: OsPath, path: string): Option<string> {
    match HomeRelative(path)
    case Some(rest) => Join(home, rest)
    case None => None
  }

  function ResolvedPath(home: OsPath, path: string): string {
    Resolve(home, path).GetOr(path)
  }

  function ResolvedIdentities(home: OsPath, identities: seq<Identity>): seq<Identity> {
    seq(|identities|, i requires 0 <= i < |identities| =>
      identities[i].(privateKeyPath := ResolvedPath(home, identities[i].privateKeyPath)))
  }

  function ResolvedOptions(home: OsPath, options: TransportOptions): TransportOptions {
    options.(
      defaultIdentity :=
        if options.defaultIdentity.Some? then Some(ResolvedPath(home, options.defaultIdentity.value)) else None,
      remoteIdentities := ResolvedIdentities(home, options.remoteIdentities))
  }

  predicate AnyResolves(home: OsPath, options: TransportOptions) {
    || (options.defaultIdentity.Some? && Resolve(home, options.defaultIdentity.value).Some?)
    || exists i :: 0 <= i < |options.remoteIdentities| &&
         Resolve(home, options.remoteIdentities[i].privateKeyPath).Some?
  }

  function HomeResolved(state: State, home: Option<OsPath>): State {
    if home.None? || !IsAbsolute(home.value) || state.meta.transport.None? then state
    else
      var options := state.meta.transport.value;
      if !AnyResolves(home.value, options) then state
      else Rewritten(state, state.meta.(transport := Some(ResolvedOptions(home.value, options))))
  }

  function DefaultPolicy(): Policy {
    Policy(None, None, "")
  }

  function FilledPolicy(policy: Policy): Policy {
    policy.(concurrency := Some(policy.concurrency.GetOr(DEFAULT_CONCURRENCY)),
            maxConnectionsPerHost := Some(policy.maxConnectionsPerHost.GetOr(DEFAULT_MAX_PER_HOST)))
  }

  function DefaultsFilled(state: State): State {
    Rewritten(state, state.meta.(policy := Some(FilledPolicy(state.meta.policy.GetOr(DefaultPolicy())))))
  }

  // ----- The rewrites in place -----

  class Request {
    var bytes: Bytes
    var meta: RequestMeta

    function Current(): State
      reads this
    {
      State(bytes, meta)
    }

    constructor (bytes: Bytes, meta: RequestMeta)
      ensures Current() == State(bytes, meta)
    {
      this.bytes, this.meta := bytes, meta;
    }

    method RewriteMeta(resolved: RequestMeta)
      modifies this
      ensures Current() == Rewritten(old(Current()), resolved)
    {
      if bytes.decoded.None? || !bytes.decoded.value.CborMap? {
        return;
      }
      var fields := bytes.decoded.value.fields;
      var k := FirstKey(fields, META_KEY);
      if k == |fields| {
        return;
      }
      bytes := Encode(CborMap(fields[k := (fields[k].0, CborMeta(resolved))]));
      meta := resolved;
    }

    /** The source's loop over the identity paths, setting a flag as it resolves them. */
    method ResolveIdentityHome(home: Option<OsPath>)
      modifies this
      ensures Current() == HomeResolved(old(Current()), home)
    {
      if home.None? || !IsAbsolute(home.value) || meta.transport.None? {
        return;
      }
      var options := meta.transport.value;
      var defaultIdentity, resolved := options.defaultIdentity, false;
      if defaultIdentity.Some? && Resolve(home.value, defaultIdentity.value).Some? {
        defaultIdentity, resolved := Resolve(home.value, defaultIdentity.value), true;
      }
      var identities := options.remoteIdentities;
      for i := 0 to |identities|
        invariant |identities| == |options.remoteIdentities|
        invariant forall j :: 0 <= j < i ==>
                    identities[j] == ResolvedIdentities(home.value, options.remoteIdentities)[j]
        invariant forall j :: i <= j < |identities| ==> identities[j] == options.remoteIdentities[j]
        invariant resolved <==> (
          || (options.defaultIdentity.Some? && Resolve(home.value, options.defaultIdentity.value).Some?)
          || exists j :: 0 <= j < i && Resolve(home.value, options.remoteIdentities[j].privateKeyPath).Some?)
      {
        var absolute := Resolve(home.value, identities[i].privateKeyPath);
        if absolute.Some? {
          identities := identities[i := identities[i].(privateKeyPath := absolute.value)];
          resolved := true;
        }
      }
      if !resolved {
        return;
      }
      assert identities == ResolvedIdentities(home.value, options.remoteIdentities);
      RewriteMeta(meta.(transport := Some(
        options.(defaultIdentity := defaultIdentity, remoteIdentities := identities))));
    }

    method FillNativeDefaults()
      modifies this
      ensures Current() == DefaultsFilled(old(Current()))
    {
      var policy := if meta.policy.Some? then meta.policy.value else DefaultPolicy();
      if policy.concurrency.None? {
        policy := policy.(concurrency := Some(DEFAULT_CONCURRENCY));
      }
      if policy.maxConnectionsPerHost.None? {
        policy := policy.(maxConnectionsPerHost := Some(DEFAULT_MAX_PER_HOST));
      }
      RewriteMeta(meta.(policy := Some(policy)));
    }
  }

  // ----- The two copies agree -----

  /** The embedded copy is the separate one. */
  predicate CopiesAgree(state: State) {
    HasMetaField(state.bytes) && Embedded(state.bytes) == CborMeta(state.meta)
  }

  /** The request's other fields: everything but the metadata field, in order. */
  function OtherFields(bytes: Bytes): Option<seq<(int, Cbor)>> {
    if bytes.decoded.None? || !bytes.decoded.value.CborMap? then None
    else
      var fields := bytes.decoded.value.fields;
      var k := FirstKey(fields, META_KEY);
      Some(if k < |fields| then fields[..k] + fields[k + 1..] else fields)
  }

  datatype Rewrite = ResolveHome(home: Option<OsPath>) | FillDefaults

  function Apply(rewrite: Rewrite, state: State): State {
    match rewrite
    case ResolveHome(home) => HomeResolved(state, home)
    case FillDefaults => DefaultsFilled(state)
  }

  function ApplyAll(rewrites: seq<Rewrite>, state: State): State
    decreases |rewrites|
  {
    if |rewrites| == 0 then state else ApplyAll(rewrites[1..], Apply(rewrites[0], state))
  }

  lemma FirstKeyStays(fields: seq<(int, Cbor)>, key: int, value: Cbor)
    requires FirstKey(fields, key) < |fields|
    ensures
      var k := FirstKey(fields, key);
      FirstKey(fields[k := (key, value)], key) == k
  {
    var k := FirstKey(fields, key);
    var changed := fields[k := (key, value)];
    assert changed[k].0 == key;
    assert forall i :: 0 <= i < k ==> changed[i] == fields[i];
  }

  /** Writing the metadata changes both copies or neither, and no other field. */
  lemma BothOrNeither(state: State, resolved: RequestMeta)
    ensures
      var after := Rewritten(state, resolved);
      && (if HasMetaField(state.bytes) then after.meta == resolved && CopiesAgree(after) else after == state)
      && OtherFields(after.bytes) == OtherFields(state.bytes)
      && (HasMetaField(after.bytes) <==> HasMetaField(state.bytes))
  {
    if HasMetaField(state.bytes) {
      var fields := state.bytes.decoded.value.fields;
      var k := FirstKey(fields, META_KEY);
      FirstKeyStays(fields, META_KEY, CborMeta(resolved));
      var changed := fields[k := (fields[k].0, CborMeta(resolved))];
      assert changed[..k] + changed[k + 1..] == fields[..k] + fields[k + 1..];
    }
  }

  /** The metadata field is the first one under key 1. */
  lemma MetadataIsFieldOne(bytes: Bytes)
    ensures HasMetaField(bytes) <==>
            && bytes.decoded.Some? && bytes.decoded.value.CborMap?
            && exists k :: 0 <= k < |bytes.decoded.value.fields| && bytes.decoded.value.fields[k].0 == 1
    ensures HasMetaField(bytes) ==>
              exists k :: 0 <= k < |bytes.decoded.value.fields|
                && bytes.decoded.value.fields[k] == (1, Embedded(bytes))
                && forall i :: 0 <= i < k ==> bytes.decoded.value.fields[i].0 != 1
  {
  }

  lemma WritingTwice(state: State, first: RequestMeta, second: RequestMeta)
    ensures Rewritten(Rewritten(state, first), second) == Rewritten(state, second)
  {
    if HasMetaField(state.bytes) {
      var fields := state.bytes.decoded.value.fields;
      var k := FirstKey(fields, META_KEY);
      FirstKeyStays(fields, META_KEY, CborMeta(first));
      assert fields[k := (META_KEY, CborMeta(first))][k := (META_KEY, CborMeta(second))] ==
               fields[k := (META_KEY, CborMeta(second))];
    }
  }

  // ----- What the rewrites leave alone -----

  /** An explicit limit stays, a missing one gets its default, and nothing else of the policy changes. */
  predicate KeepsPolicy(before: RequestMeta, after: RequestMeta) {
    && (before.policy.Some? ==> after.policy.Some?)
    && (after.policy.Some? ==>
         var was := before.policy.GetOr(DefaultPolicy());
         && after.policy.value.others == was.others
         && (was.concurrency.Some? ==> after.policy.value.concurrency == was.concurrency)
         && (was.maxConnectionsPerHost.Some? ==> after.policy.value.maxConnectionsPerHost == was.maxConnectionsPerHost))
  }

  /** A path that is not relative to the home stays; so does everything else of the transport options. */
  predicate KeepsTransport(before: RequestMeta, after: RequestMeta) {
    match (before.transport, after.transport)
    case (None, None) => true
    case (Some(b), Some(a)) =>
      && a.others == b.others && |a.remoteIdentities| == |b.remoteIdentities|
      && (b.defaultIdentity.Some? <==> a.defaultIdentity.Some?)
      && (b.defaultIdentity.Some? ==> KeepsPath(b.defaultIdentity.value, a.defaultIdentity.value))
      && forall i :: 0 <= i < |b.remoteIdentities| ==>
           && a.remoteIdentities[i].remote == b.remoteIdentities[i].remote
           && KeepsPath(b.remoteIdentities[i].privateKeyPath, a.remoteIdentities[i].privateKeyPath)
    case _ => false
  }

  predicate KeepsPath(before: string, after: string) {
    after == before || (HomeRelative(before).Some? && after != "" && after[0] == '/')
  }

  predicate Keeps(before: RequestMeta, after: RequestMeta) {
    && after.others == before.others && KeepsPolicy(before, after) && KeepsTransport(before, after)
  }

  lemma ResolvedIsAbsolute(home: OsPath, path: string)
    requires IsAbsolute(home)
    ensures KeepsPath(path, ResolvedPath(home, path))
    ensures Resolve(home, path).Some? ==> HomeRelative(ResolvedPath(home, path)).None?
  {
    forall p: string | "~/" <= p ensures p != "" && p[0] == '~' {
      assert p[0] == "~/"[0];
    }
  }

  lemma StepKeeps(rewrite: Rewrite, state: State)
    ensures Keeps(state.meta, Apply(rewrite, state).meta)
    ensures CopiesAgree(state) ==> CopiesAgree(Apply(rewrite, state))
    ensures OtherFields(Apply(rewrite, state).bytes) == OtherFields(state.bytes)
  {
    match rewrite {
      case FillDefaults =>
        BothOrNeither(state, state.meta.(policy := Some(FilledPolicy(state.meta.policy.GetOr(DefaultPolicy())))));
      case ResolveHome(home) =>
        if home.Some? && IsAbsolute(home.value) && state.meta.transport.Some? {
          var options := state.meta.transport.value;
          BothOrNeither(state, state.meta.(transport := Some(ResolvedOptions(home.value, options))));
          forall path: string ensures KeepsPath(path, ResolvedPath(home.value, path)) {
            ResolvedIsAbsolute(home.value, path);
          }
        }
    }
  }

  lemma KeepsTwice(a: RequestMeta, b: RequestMeta, c: RequestMeta)
    requires Keeps(a, b) && Keeps(b, c)
    ensures Keeps(a, c)
  {
    hide KeepsPath, KeepsPolicy;
    PolicyKeptTwice(a, b, c);
    forall x, y, z | KeepsPath(x, y) && KeepsPath(y, z) ensures KeepsPath(x, z) {
      PathKeptTwice(x, y, z);
    }
  }

  lemma PolicyKeptTwice(a: RequestMeta, b: RequestMeta, c: RequestMeta)
    requires KeepsPolicy(a, b) && KeepsPolicy(b, c)
    ensures KeepsPolicy(a, c)
  {
  }

  lemma PathKeptTwice(a: string, b: string, c: string)
    requires KeepsPath(a, b) && KeepsPath(b, c)
    ensures KeepsPath(a, c)
  {
  }

  /** Any sequence of rewrites keeps the copies equal, and every explicit limit and every other field as they were. */
  lemma {:induction false} RewritesKeepTheCopiesEqual(rewrites: seq<Rewrite>, state: State)
    requires CopiesAgree(state)
    ensures CopiesAgree(ApplyAll(rewrites, state))
    ensures OtherFields(ApplyAll(rewrites, state).bytes) == OtherFields(state.bytes)
    ensures Keeps(state.meta, ApplyAll(rewrites, state).meta)
    decreases |rewrites|
  {
    hide Keeps, Apply, CopiesAgree, OtherFields;
    if |rewrites| == 0 {
      KeepsItself(state.meta);
    } else {
      var next := Apply(rewrites[0], state);
      StepKeeps(rewrites[0], state);
      RewritesKeepTheCopiesEqual(rewrites[1..], next);
      KeepsTwice(state.meta, next.meta, ApplyAll(rewrites, state).meta);
    }
  }

  lemma KeepsItself(meta: RequestMeta)
    ensures Keeps(meta, meta)
  {
  }

  // ----- Doing it again -----

  lemma ResolvedAgain(home: OsPath, options: TransportOptions)
    requires IsAbsolute(home)
    ensures !AnyResolves(home, ResolvedOptions(home, options))
  {
    forall path: string ensures Resolve(home, ResolvedPath(home, path)).None? {
      ResolvedIsAbsolute(home, path);
    }
  }

  /** A rewrite done again changes nothing more. */
  lemma RewriteIsIdempotent(rewrite: Rewrite, state: State)
    ensures Apply(rewrite, Apply(rewrite, state)) == Apply(rewrite, state)
  {
    hide AnyResolves, ResolvedOptions;
    match rewrite {
      case FillDefaults =>
        var filled := state.meta.(policy := Some(FilledPolicy(state.meta.policy.GetOr(DefaultPolicy()))));
        WritingTwice(state, filled, filled);
      case ResolveHome(home) =>
        if home.Some? && IsAbsolute(home.value) && state.meta.transport.Some? {
          ResolvedAgain(home.value, state.meta.transport.value);
        }
    }
  }

  /** The two kinds of rewrite touch different parts, so their order does not matter. */
  lemma RewritesCommute(home: Option<OsPath>, state: State)
    ensures HomeResolved(DefaultsFilled(state), home) == DefaultsFilled(HomeResolved(state, home))
  {
    hide AnyResolves, ResolvedOptions;
    var filled := state.meta.(policy := Some(FilledPolicy(state.meta.policy.GetOr(DefaultPolicy()))));
    if home.Some? && IsAbsolute(home.value) && state.meta.transport.Some? {
      var resolved := Some(ResolvedOptions(home.value, state.meta.transport.value));
      WritingTwice(state, filled, filled.(transport := resolved));
      WritingTwice(state, state.meta.(transport := resolved), filled.(transport := resolved));
    }
  }

  /** After the rewrites both limits are set and no path that could be resolved is left. */
  lemma RewritesComplete(home: OsPath, state: State)
    requires CopiesAgree(state) && IsAbsolute(home)
    ensures
      var policy := DefaultsFilled(state).meta.policy;
      policy.Some? && policy.value.concurrency.Some? && policy.value.maxConnectionsPerHost.Some?
    ensures
      var transport := HomeResolved(state, Some(home)).meta.transport;
      transport.Some? ==> !AnyResolves(home, transport.value)
  {
    hide AnyResolves, ResolvedOptions;
    if state.meta.transport.Some? {
      ResolvedAgain(home, state.meta.transport.value);
    }
  }

  /** A request none of whose identity paths starts with a tilde is not rewritten at all, bytes included. */
  lemma NothingToResolve(state: State, home: Option<OsPath>)
    requires state.meta.transport.Some? ==>
               var options := state.meta.transport.value;
               && (options.defaultIdentity.Some? ==>
                     (options.defaultIdentity.value == "" || options.defaultIdentity.value[0] != '~'))
               && forall i :: 0 <= i < |options.remoteIdentities| ==>
                    var path := options.remoteIdentities[i].privateKeyPath;
                    path == "" || path[0] != '~'
    ensures HomeResolved(state, home) == state
  {
    assert forall path: string :: "~/" <= path ==> path != "" && path[0] == "~/"[0];
  }

  // ----- The outcome of any sequence -----

  function Concurrency(meta: RequestMeta): Option<int> {
    if meta.policy.Some? then meta.policy.value.concurrency else None
  }

  function MaxPerHost(meta: RequestMeta): Option<int> {
    if meta.policy.Some? then meta.policy.value.maxConnectionsPerHost else None
  }

  lemma LimitsAfterOne(rewrite: Rewrite, state: State)
    requires CopiesAgree(state)
    ensures
      var after := Apply(rewrite, state).meta;
      && Concurrency(after) ==
         (if Concurrency(state.meta).None? && rewrite.FillDefaults? then Some(50) else Concurrency(state.meta))
      && MaxPerHost(after) ==
         (if MaxPerHost(state.meta).None? && rewrite.FillDefaults? then Some(8) else MaxPerHost(state.meta))
  {
    hide AnyResolves, ResolvedOptions;
  }

  /**
    After any rewrites a limit is the caller's own, or 50 or 8 if it was unset and the defaults
    were ever filled in.
  */
  lemma {:induction false} LimitsAfterAnyRewrites(rewrites: seq<Rewrite>, state: State)
    requires CopiesAgree(state)
    ensures
      var after := ApplyAll(rewrites, state).meta;
      && Concurrency(after) ==
         (if Concurrency(state.meta).None? && FillDefaults in rewrites then Some(50) else Concurrency(state.meta))
      && MaxPerHost(after) ==
         (if MaxPerHost(state.meta).None? && FillDefaults in rewrites then Some(8) else MaxPerHost(state.meta))
    decreases |rewrites|
  {
    hide Apply, CopiesAgree, Concurrency, MaxPerHost;
    if |rewrites| > 0 {
      LimitsAfterOne(rewrites[0], state);
      StepKeeps(rewrites[0], state);
      LimitsAfterAnyRewrites(rewrites[1..], Apply(rewrites[0], state));
      assert FillDefaults in rewrites <==> rewrites[0] == FillDefaults || FillDefaults in rewrites[1..];
    }
  }

  /** The path as the first rewrite resolves it whose home can. */
  function FirstResolved(rewrites: seq<Rewrite>, path: string): string {
    if |rewrites| == 0 then path
    else
      var rewrite := rewrites[0];
      if rewrite.ResolveHome? && rewrite.home.Some? && IsAbsolute(rewrite.home.value) &&
        Resolve(rewrite.home.value, path).Some?
      then Resolve(rewrite.home.value, path).value
      else FirstResolved(rewrites[1..], path)
  }

  lemma {:induction false} ResolvedStays(rewrites: seq<Rewrite>, path: string)
    requires HomeRelative(path).None?
    ensures FirstResolved(rewrites, path) == path
  {
    if |rewrites| > 0 {
      ResolvedStays(rewrites[1..], path);
    }
  }

  lemma AfterOne(rewrite: Rewrite, path: string)
    ensures FirstResolved([rewrite], path) ==
            if rewrite.ResolveHome? && rewrite.home.Some? && IsAbsolute(rewrite.home.value)
            then ResolvedPath(rewrite.home.value, path) else path
  {
    assert [rewrite][1..] == [] && FirstResolved([], path) == path;
  }

  lemma FirstResolvedInTurn(rewrites: seq<Rewrite>, path: string)
    requires |rewrites| > 0
    ensures FirstResolved(rewrites, path) == FirstResolved(rewrites[1..], FirstResolved([rewrites[0]], path))
  {
    var rewrite := rewrites[0];
    AfterOne(rewrite, path);
    if rewrite.ResolveHome? && rewrite.home.Some? && IsAbsolute(rewrite.home.value) &&
      Resolve(rewrite.home.value, path).Some? {
      ResolvedIsAbsolute(rewrite.home.value, path);
      ResolvedStays(rewrites[1..], Resolve(rewrite.home.value, path).value);
    }
  }

  /** The same remotes in the same order, with every path as the rewrites leave it. */
  predicate PathsAre(before: RequestMeta, after: RequestMeta, rewrites: seq<Rewrite>) {
    match (before.transport, after.transport)
    case (None, None) => true
    case (Some(b), Some(a)) =>
      && a.defaultIdentity == (
           if b.defaultIdentity.Some? then Some(FirstResolved(rewrites, b.defaultIdentity.value)) else None)
      && |a.remoteIdentities| == |b.remoteIdentities|
      && forall i :: 0 <= i < |b.remoteIdentities| ==>
           a.remoteIdentities[i] ==
           Identity(b.remoteIdentities[i].remote, FirstResolved(rewrites, b.remoteIdentities[i].privateKeyPath))
    case _ => false
  }

  lemma PathsAfterOne(rewrite: Rewrite, state: State)
    requires CopiesAgree(state)
    ensures PathsAre(state.meta, Apply(rewrite, state).meta, [rewrite])
  {
    hide FirstResolved, Resolve;
    forall path: string ensures FirstResolved([rewrite], path) ==
      if rewrite.ResolveHome? && rewrite.home.Some? && IsAbsolute(rewrite.home.value)
      then ResolvedPath(rewrite.home.value, path) else path {
      AfterOne(rewrite, path);
    }
  }

  /**
    Below an absolute home `~` is the home with a separator behind it, and a path after `~/` is
    joined to that, unless it is absolute itself; a home that is no text resolves only the last
    kind. Every other path stays, as every path does without an absolute home.
  */
  predicate ResolvesTo(home: Option<OsPath>, before: string, after: string) {
    var below := |before| >= 2 && before[0] == '~' && before[1] == '/';
    if below && |before| > 2 && before[2] == '/' && home.Some?
       && (home.value.NotUtf8? ==> home.value.absolute)
       && (home.value.Utf8? ==> home.value.text != "" && home.value.text[0] == '/')
    then after == before[2..]
    else if (below || before == "~") && home.Some? && home.value.Utf8? && home.value.text != ""
            && home.value.text[0] == '/'
    then
      var base := home.value.text;
      var folder := if base[|base| - 1] == '/' then base else base + "/";
      after == folder + (if below then before[2..] else "")
    else after == before
  }

  lemma PathIsResolved(home: Option<OsPath>, path: string)
    ensures ResolvesTo(home, path, FirstResolved([ResolveHome(home)], path))
  {
    AfterOne(ResolveHome(home), path);
    assert "~/" <= path <==> |path| >= 2 && path[0] == '~' && path[1] == '/' by {
      assert |path| >= 2 ==> path[..2] == [path[0], path[1]];
    }
    if home.Some? && home.value.Utf8? {
      var base := home.value.text;
      assert base + "" == base && (base + "/") + "" == base + "/";
    }
  }

  /** Resolving against a home makes of every identity path just what that home calls for. */
  lemma HomePathsResolve(state: State, home: Option<OsPath>)
    requires CopiesAgree(state)
    ensures
      var before, after := state.meta.transport, HomeResolved(state, home).meta.transport;
      && (before.Some? <==> after.Some?)
      && (before.Some? ==>
            && (before.value.defaultIdentity.Some? <==> after.value.defaultIdentity.Some?)
            && (before.value.defaultIdentity.Some? ==>
                  ResolvesTo(home, before.value.defaultIdentity.value, after.value.defaultIdentity.value))
            && |after.value.remoteIdentities| == |before.value.remoteIdentities|
            && forall i :: 0 <= i < |before.value.remoteIdentities| ==>
                 ResolvesTo(home, before.value.remoteIdentities[i].privateKeyPath,
                            after.value.remoteIdentities[i].privateKeyPath))
  {
    hide ResolvesTo, FirstResolved, HomeResolved, CopiesAgree;
    PathsAfterOne(ResolveHome(home), state);
    forall path: string ensures ResolvesTo(home, path, FirstResolved([ResolveHome(home)], path)) {
      PathIsResolved(home, path);
    }
  }

  /** After any rewrites every path is as the first home that can resolve it does, and otherwise as it was. */
  lemma {:induction false} PathsAfterAnyRewrites(rewrites: seq<Rewrite>, state: State)
    requires CopiesAgree(state)
    ensures PathsAre(state.meta, ApplyAll(rewrites, state).meta, rewrites)
    decreases |rewrites|
  {
    hide Apply, CopiesAgree, FirstResolved;
    if |rewrites| == 0 {
      UntouchedPaths(state.meta);
      assert rewrites == [];
    } else {
      PathsAfterOne(rewrites[0], state);
      StepKeeps(rewrites[0], state);
      PathsAfterAnyRewrites(rewrites[1..], Apply(rewrites[0], state));
      forall path: string
        ensures FirstResolved(rewrites, path) == FirstResolved(rewrites[1..], FirstResolved([rewrites[0]], path)) {
        FirstResolvedInTurn(rewrites, path);
      }
    }
  }

  lemma UntouchedPaths(meta: RequestMeta)
    ensures PathsAre(meta, meta, [])
  {
  }
}
