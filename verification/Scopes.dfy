/**
Scopes on their way from the stored text of a key or client, through key rotations and
the token's scope claim (syntax of section 3.3 of RFC 6749, grant of section 4.4), to
the principal that a request runs as.

The stored text lists the scopes in alphabetical order; here any order will do.
*/
module Scopes {
  import opened Common

  // ---- Splitting and joining ----

  function Split(s: string, sep: char): (parts: seq<string>)
    ensures |parts| > 0
  {
    if s == "" then [""]
    else
      var rest := Split(s[1..], sep);
      if s[0] == sep then [""] + rest else [[s[0]] + rest[0]] + rest[1..]
  }

  function Join(parts: seq<string>, sep: char): string {
    if |parts| == 0 then ""
    else if |parts| == 1 then parts[0]
    else parts[0] + [sep] + Join(parts[1..], sep)
  }

  /** What stripping removes: the Unicode white space. */
  predicate IsSpace(c: char) {
    || '\U{9}' <= c <= '\U{D}' || '\U{1C}' <= c <= '\U{20}' || c == '\U{85}' || c == '\U{A0}' || c == '\U{1680}'
    || '\U{2000}' <= c <= '\U{200A}' || c == '\U{2028}' || c == '\U{2029}' || c == '\U{202F}' || c == '\U{205F}'
    || c == '\U{3000}'
  }

  const SPACES := "\U{9}\U{A}\U{B}\U{C}\U{D}\U{1C}\U{1D}\U{1E}\U{1F}\U{20}\U{85}\U{A0}\U{1680}\U{2000}\U{2001}\U{2002}\U{2003}"
                  + "\U{2004}\U{2005}\U{2006}\U{2007}\U{2008}\U{2009}\U{200A}\U{2028}\U{2029}\U{202F}\U{205F}\U{3000}"

  lemma SpacesListed(c: char)
    ensures IsSpace(c) <==> c in SPACES
  {
  }

  function StripLeft(s: string): (r: string)
    ensures r == "" || !IsSpace(r[0])
    ensures forall c :: c in r ==> c in s
  {
    if s != "" && IsSpace(s[0]) then StripLeft(s[1..]) else s
  }

  function StripRight(s: string): (r: string)
    ensures r == "" || !IsSpace(r[|r| - 1])
    ensures |r| <= |s| && r == s[..|r|]
  {
    if s != "" && IsSpace(s[|s| - 1]) then StripRight(s[..|s| - 1]) else s
  }

  function Strip(s: string): string {
    StripRight(StripLeft(s))
  }

  lemma {:induction false} SplitPiece(piece: string, rest: string, sep: char)
    requires sep !in piece
    ensures Split(piece, sep) == [piece]
    ensures Split(piece + [sep] + rest, sep) == [piece] + Split(rest, sep)
  {
    var all := piece + [sep] + rest;
    if piece == "" {
      assert all[1..] == rest;
    } else {
      SplitPiece(piece[1..], rest, sep);
      assert all[1..] == piece[1..] + [sep] + rest;
      assert [piece[0]] + piece[1..] == piece;
    }
  }

  /** Joining pieces without separators and splitting again gives the pieces back. */
  lemma {:induction false} SplitJoin(parts: seq<string>, sep: char)
    requires parts != [] && forall p :: p in parts ==> sep !in p
    ensures Split(Join(parts, sep), sep) == parts
  {
    SplitPiece(parts[0], Join(parts[1..], sep), sep);
    if |parts| > 1 {
      SplitJoin(parts[1..], sep);
      assert parts == [parts[0]] + parts[1..];
    }
  }

  lemma {:induction false} SplitHasNoSeparator(s: string, sep: char)
    ensures forall p :: p in Split(s, sep) ==> sep !in p
  {
    if s != "" {
      SplitHasNoSeparator(s[1..], sep);
    }
  }

  // ---- Stored scopes ----

  /** The non-empty scopes of a stored text, stripped. */
  function Pieces(parts: seq<string>): seq<string> {
    if parts == [] then []
    else if Strip(parts[0]) == "" then Pieces(parts[1..])
    else [Strip(parts[0])] + Pieces(parts[1..])
  }

  function ParseScopes(text: string): seq<string> {
    Pieces(Split(text, ','))
  }

  function SetOf(scopes: seq<string>): set<string> {
    set s | s in scopes
  }

  /** A scope that survives storage: not empty, no comma, no surrounding space. */
  predicate Clean(scope: string) {
    scope != "" && ',' !in scope && !IsSpace(scope[0]) && !IsSpace(scope[|scope| - 1])
  }

  /** The set in some order, each scope once. */
  ghost predicate Lists(order: seq<string>, scopes: set<string>) {
    SetOf(order) == scopes && forall i, j :: 0 <= i < j < |order| ==> order[i] != order[j]
  }

  /** The text that is stored for some scopes; empty ones are left out. */
  ghost predicate Serialized(scopes: set<string>, text: string) {
    exists order :: Lists(order, scopes - {""}) && text == Join(order, ',')
  }

  lemma StripIsClean(s: string)
    requires ',' !in s && Strip(s) != ""
    ensures Clean(Strip(s))
  {
  }

  lemma {:induction false} PiecesAreClean(parts: seq<string>)
    requires forall p :: p in parts ==> ',' !in p
    ensures forall s :: s in Pieces(parts) ==> Clean(s)
  {
    if parts != [] {
      PiecesAreClean(parts[1..]);
      if Strip(parts[0]) != "" {
        StripIsClean(parts[0]);
      }
    }
  }

  /** Whatever was stored, what is read back is clean. */
  lemma ParsedIsClean(text: string)
    ensures forall s :: s in ParseScopes(text) ==> Clean(s)
  {
    SplitHasNoSeparator(text, ',');
    PiecesAreClean(Split(text, ','));
  }

  lemma NothingToStrip(s: string)
    requires s != "" && !IsSpace(s[0]) && !IsSpace(s[|s| - 1])
    ensures Strip(s) == s
  {
  }

  lemma {:induction false} CleanPieces(parts: seq<string>)
    requires forall p :: p in parts ==> Clean(p)
    ensures Pieces(parts) == parts
  {
    if parts != [] {
      assert Clean(parts[0]);
      NothingToStrip(parts[0]);
      CleanPieces(parts[1..]);
      assert parts == [parts[0]] + parts[1..];
    }
  }

  lemma ParseOfListing(order: seq<string>)
    requires forall s :: s in order ==> Clean(s)
    ensures ParseScopes(Join(order, ',')) == order
  {
    if order == [] {
      assert Split("", ',') == [""];
      assert Strip("") == "";
    } else {
      SplitJoin(order, ',');
      CleanPieces(order);
    }
  }

  /** Storing scopes and reading them back gives the same set exactly when every one of them is clean. */
  lemma StoredScopesRoundTripIff(scopes: set<string>, text: string)
    requires Serialized(scopes, text)
    ensures SetOf(ParseScopes(text)) == scopes - {""} <==> forall s :: s in scopes && s != "" ==> Clean(s)
  {
    ParsedIsClean(text);
    if forall s :: s in scopes && s != "" ==> Clean(s) {
      var order :| Lists(order, scopes - {""}) && text == Join(order, ',');
      forall s | s in order ensures Clean(s) {
        assert s in SetOf(order);
      }
      ParseOfListing(order);
    }
    if SetOf(ParseScopes(text)) == scopes - {""} {
      forall s | s in scopes && s != "" ensures Clean(s) {
        assert s in SetOf(ParseScopes(text));
      }
    }
  }

  /** Rotating a key stores what was read from the old one. */
  ghost predicate RotatedText(text: string, text': string) {
    Serialized(SetOf(ParseScopes(text)), text')
  }

  ghost predicate Rotations(texts: seq<string>) {
    texts != [] && forall i :: 0 <= i < |texts| - 1 ==> RotatedText(texts[i], texts[i + 1])
  }

  /** Any number of rotations preserves the scope set of every stored text. */
  lemma {:induction false} RotationsPreserveScopes(texts: seq<string>, i: nat)
    requires Rotations(texts) && i < |texts|
    ensures SetOf(ParseScopes(texts[i])) == SetOf(ParseScopes(texts[0]))
  {
    if i > 0 {
      RotationsPreserveScopes(texts, i - 1);
      assert RotatedText(texts[i - 1], texts[i - 1 + 1]);
      var scopes := SetOf(ParseScopes(texts[i - 1]));
      ParsedIsClean(texts[i - 1]);
      StoredScopesRoundTripIff(scopes, texts[i]);
      assert "" !in scopes;
    }
  }

  // ---- The API key service ----

  datatype ApiKey = ApiKey(name: string, scopes: string, tenant: Option<string>, active: bool, rotates: Option<nat>)

  method Serialize(scopes: set<string>) returns (text: string)
    ensures Serialized(scopes, text)
  {
    var order: seq<string> := [];
    var todo := scopes - {""};
    while todo != {}
      invariant todo <= scopes - {""}
      invariant Lists(order, scopes - {""} - todo)
      decreases todo
    {
      var s :| s in todo;
      assert s !in SetOf(order);
      assert SetOf(order + [s]) == SetOf(order) + {s};
      order, todo := order + [s], todo - {s};
    }
    assert Lists(order, scopes - {""});
    text := Join(order, ',');
  }

  class ApiKeyService {
    var keys: map<nat, ApiKey>
    var next: nat

    constructor ()
      ensures keys == map[] && next == 0
    {
      keys, next := map[], 0;
    }

    ghost predicate Valid() reads this {
      forall k :: k in keys ==> k < next
    }

    method Issue(name: string, scopes: set<string>, tenant: Option<string>, rotates: Option<nat>) returns (id: nat)
      requires Valid()
      modifies this
      ensures Valid() && id == old(next) && keys.Keys == old(keys).Keys + {id}
      ensures keys == old(keys)[id := ApiKey(name, keys[id].scopes, tenant, true, rotates)]
      ensures Serialized(scopes, keys[id].scopes)
    {
      var text := Serialize(scopes);
      id := next;
      keys, next := keys[id := ApiKey(name, text, tenant, true, rotates)], next + 1;
    }

    /** A new key with the scopes and tenant of the old one; the old one stays as it is. */
    method Rotate(previous: nat, name: string) returns (id: Option<nat>)
      requires Valid()
      modifies this
      ensures Valid() && (id.None? <==> previous !in old(keys))
      ensures id.None? ==> keys == old(keys)
      ensures id.Some? ==>
                && id.value !in old(keys) && keys.Keys == old(keys).Keys + {id.value}
                && (forall k :: k in old(keys) ==> keys[k] == old(keys)[k])
                && keys[id.value].rotates == Some(previous) && keys[id.value].tenant == old(keys)[previous].tenant
                && RotatedText(old(keys)[previous].scopes, keys[id.value].scopes)
                && SetOf(ParseScopes(keys[id.value].scopes)) == SetOf(ParseScopes(old(keys)[previous].scopes))
    {
      if previous !in keys {
        return None;
      }
      var row := keys[previous];
      var issued := Issue(name, SetOf(ParseScopes(row.scopes)), row.tenant, Some(previous));
      RotationsPreserveScopes([row.scopes, keys[issued].scopes], 1);
      return Some(issued);
    }

    method Revoke(id: nat) returns (found: bool)
      requires Valid()
      modifies this
      ensures Valid() && found == (id in old(keys))
      ensures keys == if found then old(keys)[id := old(keys)[id].(active := false)] else old(keys)
    {
      found := id in keys;
      if found {
        keys := keys[id := keys[id].(active := false)];
      }
    }
  }

  // ---- The token endpoint ----

  const ADMIN := "admin"
  const RUNTIME := "runtime"

  function TenantScope(tenant: string): string {
    "tenant:" + tenant
  }

  predicate IsTenantScope(scope: string) {
    "tenant:" <= scope
  }

  datatype Client = Client(scopes: seq<string>, tenant: Option<string>)

  function NonEmpty(parts: seq<string>): (r: seq<string>)
    ensures forall p :: p in r <==> p in parts && p != ""
  {
    if parts == [] then [] else (if parts[0] == "" then [] else [parts[0]]) + NonEmpty(parts[1..])
  }

  /** The requested scopes, all of them owned; everything owned when nothing is requested. None: refused. */
  function ParseScopeRequest(scope: Option<string>, owned: seq<string>): (r: Option<seq<string>>)
    ensures r.Some? ==> forall s :: s in r.value ==> s in owned
  {
    if scope.None? || Strip(scope.value) == "" then Some(owned)
    else
      var requested := NonEmpty(Split(scope.value, ' '));
      if requested == [] then Some(owned)
      else if forall s :: s in requested ==> s in owned then Some(requested)
      else None
  }

  /** A client that names words gets exactly these, if it owns them all; one that names none gets all it owns. */
  lemma RequestedWords(words: seq<string>, owned: seq<string>)
    requires forall w :: w in words ==> SpaceFree(w)
    ensures ParseScopeRequest(Some(Join(words, ' ')), owned)
            == if words == [] then Some(owned) else if forall w :: w in words ==> w in owned then Some(words) else None
    ensures ParseScopeRequest(None, owned) == Some(owned)
  {
    if words != [] {
      forall w | w in words ensures ' ' !in w && w != "" {
        assert SpaceFree(w);
      }
      SplitJoin(words, ' ');
      NothingEmpty(words);
      JoinIsNotBlank(words);
    }
  }

  /** So does a request of white space alone. */
  lemma BlankRequest(scope: string, owned: seq<string>)
    requires forall c :: c in scope ==> c in SPACES
    ensures ParseScopeRequest(Some(scope), owned) == Some(owned)
  {
    forall c | c in scope ensures IsSpace(c) {
      SpacesListed(c);
    }
    BlankIsStripped(scope);
  }

  lemma {:induction false} BlankIsStripped(s: string)
    requires forall c :: c in s ==> IsSpace(c)
    ensures StripLeft(s) == ""
  {
    if s != "" {
      BlankIsStripped(s[1..]);
    }
  }

  lemma {:induction false} NothingEmpty(parts: seq<string>)
    requires forall p :: p in parts ==> p != ""
    ensures NonEmpty(parts) == parts
  {
    if parts != [] {
      assert parts[0] in parts;
      assert forall p :: p in parts[1..] ==> p in parts;
      NothingEmpty(parts[1..]);
    }
  }

  lemma JoinIsNotBlank(words: seq<string>)
    requires words != [] && SpaceFree(words[0])
    ensures Strip(Join(words, ' ')) != ""
  {
    var all := Join(words, ' ');
    assert all[0] == words[0][0];
    assert StripLeft(all) == all;
    StripRightKeeps(all, 0);
  }

  lemma {:induction false} StripRightKeeps(s: string, i: nat)
    requires i < |s| && !IsSpace(s[i])
    ensures StripRight(s) != ""
  {
    if IsSpace(s[|s| - 1]) {
      StripRightKeeps(s[..|s| - 1], i);
    }
  }

  /**
  A request for some words is granted exactly if the client owns them all and, bound to a
  tenant, names no other tenant's scope; it then gets them, and its own tenant's scope.
  */
  lemma WordsGranted(client: Client, words: seq<string>)
    requires forall w :: w in words ==> SpaceFree(w)
    ensures var asked := if words == [] then client.scopes else words;
            var granted := GrantedScopes(client, Some(Join(words, ' ')));
            && (granted.Some? <==>
                && (forall w :: w in asked ==> w in client.scopes)
                && (client.tenant.Some? ==> forall w, t: string :: w in asked && w == "tenant:" + t ==> t == client.tenant.value))
            && (granted.Some? ==>
                  SetOf(granted.value) == SetOf(asked) + if client.tenant.Some? then {"tenant:" + client.tenant.value} else {})
  {
    RequestedWords(words, client.scopes);
    var asked := if words == [] then client.scopes else words;
    if client.tenant.Some? {
      var own := TenantScope(client.tenant.value);
      forall w | w in asked ensures IsTenantScope(w) && w != own <==> exists t: string :: w == "tenant:" + t && t != client.tenant.value {
        if IsTenantScope(w) {
          assert w == "tenant:" + w[|"tenant:"|..];
        }
        if t: string :| w == "tenant:" + t && t != client.tenant.value {
          assert w[|"tenant:"|..] == t && own[|"tenant:"|..] == client.tenant.value;
        }
      }
      assert SetOf(asked + [own]) == SetOf(asked) + {own};
    }
  }

  datatype Claims = Claims(scope: string, tenant: Option<string>)

  /** The scopes of the token, or none when the request is refused. */
  function GrantedScopes(client: Client, scope: Option<string>): Option<seq<string>> {
    match ParseScopeRequest(scope, client.scopes)
    case None => None
    case Some(requested) =>
      if client.tenant.None? then Some(requested)
      else
        var own := TenantScope(client.tenant.value);
        if exists s :: s in requested && IsTenantScope(s) && s != own then None
        else if own in requested then Some(requested)
        else Some(requested + [own])
  }

  function IssueToken(client: Client, scope: Option<string>): Option<Claims> {
    match GrantedScopes(client, scope)
    case None => None
    case Some(scopes) => Some(Claims(Join(scopes, ' '), client.tenant))
  }

  // ---- The principal ----

  predicate IdChar(c: char) {
    'A' <= c <= 'Z' || 'a' <= c <= 'z' || '0' <= c <= '9' || c == '_' || c == '-' || c == ':'
  }

  /** The scopes that mean something inside the service. */
  predicate Internal(scope: string) {
    || scope == ADMIN || scope == RUNTIME
    || (IsTenantScope(scope) && |scope| > |"tenant:"| && forall i :: |"tenant:"| <= i < |scope| ==> IdChar(scope[i]))
  }

  const UPPER := "ABCDEFGHIJKLMNOPQRSTUVWXYZ"
  const LOWER := "abcdefghijklmnopqrstuvwxyz"
  const OTHER := "0123456789_-:"

  lemma IdCharsListed(c: char)
    ensures IdChar(c) <==> c in UPPER || c in LOWER || c in OTHER
  {
    UpperListed(c);
    LowerListed(c);
    OtherListed(c);
  }

  lemma UpperListed(c: char)
    ensures c in UPPER <==> 'A' <= c <= 'Z'
  {
  }

  lemma LowerListed(c: char)
    ensures c in LOWER <==> 'a' <= c <= 'z'
  {
  }

  lemma OtherListed(c: char)
    ensures c in OTHER <==> '0' <= c <= '9' || c == '_' || c == '-' || c == ':'
  {
  }

  /** A text that can be a tenant's id in a scope. */
  predicate IdText(id: string) {
    id != "" && forall c :: c in id ==> c in UPPER || c in LOWER || c in OTHER
  }

  /** What scopes mean something: the two surfaces and one for each tenant id. */
  lemma InternalVocabulary(scope: string)
    ensures Internal(scope) <==>
            || scope == "admin" || scope == "runtime"
            || exists id :: IdText(id) && scope == "tenant:" + id
  {
    forall c ensures IdChar(c) <==> c in UPPER || c in LOWER || c in OTHER {
      IdCharsListed(c);
    }
    if IsTenantScope(scope) {
      assert scope == "tenant:" + scope[|"tenant:"|..];
    }
    if id :| IdText(id) && scope == "tenant:" + id {
      assert forall i :: |"tenant:"| <= i < |scope| ==> scope[i] == id[i - |"tenant:"|];
    }
  }

  /** What an issuer's scope means here: what the issuer's map says, else itself. */
  function Translate(scopeMap: map<string, string>, token: string): string {
    if token in scopeMap then scopeMap[token] else token
  }

  function InternalScopes(scopeMap: map<string, string>, tokens: seq<string>): set<string> {
    set t | t in Pieces(tokens) && Internal(Translate(scopeMap, t)) :: Translate(scopeMap, t)
  }

  /** A scope counts if it is internal and the claim has it, unmapped, or has one that the map sends to it. */
  lemma MapDecides(scopeMap: map<string, string>, tokens: seq<string>, scope: string)
    ensures scope in InternalScopes(scopeMap, tokens) <==>
            && Internal(scope)
            && ((scope !in scopeMap && scope in Pieces(tokens)) || exists t :: t in Pieces(tokens) && t in scopeMap && scopeMap[t] == scope)
  {
  }

  /** Translate the scopes of a claim and keep the internal ones, each once. */
  method MapScopes(claim: string, scopeMap: map<string, string>) returns (mapped: seq<string>)
    ensures SetOf(mapped) == InternalScopes(scopeMap, Split(claim, ' '))
    ensures forall i, j :: 0 <= i < j < |mapped| ==> mapped[i] != mapped[j]
  {
    var tokens := Split(claim, ' ');
    mapped := [];
    var seen: set<string> := {};
    for i := 0 to |tokens|
      invariant seen == SetOf(mapped) == InternalScopes(scopeMap, tokens[..i])
      invariant forall j, k :: 0 <= j < k < |mapped| ==> mapped[j] != mapped[k]
    {
      var token := Strip(tokens[i]);
      OneMoreScope(scopeMap, tokens, i);
      var value := Translate(scopeMap, token);
      if token != "" && value !in seen && Internal(value) {
        assert SetOf(mapped + [value]) == SetOf(mapped) + {value};
        mapped, seen := mapped + [value], seen + {value};
      }
    }
    assert tokens[..|tokens|] == tokens;
  }

  lemma OneMoreScope(scopeMap: map<string, string>, tokens: seq<string>, i: nat)
    requires i < |tokens|
    ensures var token := Strip(tokens[i]);
            var value := Translate(scopeMap, token);
            InternalScopes(scopeMap, tokens[..i + 1])
            == InternalScopes(scopeMap, tokens[..i]) + (if token != "" && Internal(value) then {value} else {})
  {
    PiecesOfMore(tokens, i);
    var token := Strip(tokens[i]);
    if token != "" {
      assert token in Pieces(tokens[..i + 1]);
    }
  }

  lemma PiecesOfMore(tokens: seq<string>, i: nat)
    requires i < |tokens|
    ensures Pieces(tokens[..i + 1])
            == Pieces(tokens[..i]) + (if Strip(tokens[i]) == "" then [] else [Strip(tokens[i])])
  {
    assert tokens[..i + 1] == tokens[..i] + [tokens[i]];
    PiecesAppend(tokens[..i], [tokens[i]]);
  }

  lemma {:induction false} PiecesAppend(some: seq<string>, more: seq<string>)
    ensures Pieces(some + more) == Pieces(some) + Pieces(more)
  {
    if some == [] {
      assert some + more == more;
    } else {
      assert (some + more)[1..] == some[1..] + more;
      PiecesAppend(some[1..], more);
    }
  }

  datatype Principal = Principal(scopes: set<string>, tenant: Option<string>)

  /** The internal scopes of the claim; a tenant-bound token without any gets its tenant's. */
  function Resolve(claims: Claims): Principal {
    var scopes := set s | s in Pieces(Split(claims.scope, ' ')) && Internal(s);
    Principal(if claims.tenant.Some? && scopes == {} then {TenantScope(claims.tenant.value)} else scopes, claims.tenant)
  }

  /** Self-issued tokens are read with an empty scope map. */
  method ResolveToken(claims: Claims) returns (principal: Principal)
    ensures principal == Resolve(claims)
  {
    var mapped := MapScopes(claims.scope, map[]);
    var tokens := Split(claims.scope, ' ');
    assert InternalScopes(map[], tokens) == set s | s in Pieces(tokens) && Internal(s) by {
      assert forall t :: Translate(map[], t) == t;
    }
    var scopes := SetOf(mapped);
    if claims.tenant.Some? && scopes == {} {
      scopes := {TenantScope(claims.tenant.value)};
    }
    principal := Principal(scopes, claims.tenant);
  }

  /** No space anywhere, as section 3.3 of RFC 6749 has it. */
  predicate SpaceFree(scope: string) {
    scope != "" && forall i :: 0 <= i < |scope| ==> !IsSpace(scope[i])
  }

  lemma {:induction false} SpaceFreePieces(parts: seq<string>)
    requires forall p :: p in parts ==> SpaceFree(p)
    ensures Pieces(parts) == parts
  {
    if parts != [] {
      assert SpaceFree(parts[0]);
      NothingToStrip(parts[0]);
      SpaceFreePieces(parts[1..]);
      assert parts == [parts[0]] + parts[1..];
    }
  }

  lemma ClaimRoundTrips(scopes: seq<string>)
    requires forall s :: s in scopes ==> SpaceFree(s)
    ensures Pieces(Split(Join(scopes, ' '), ' ')) == scopes
  {
    if scopes == [] {
      assert Split("", ' ') == [""];
      assert Strip("") == "";
    } else {
      forall s | s in scopes ensures ' ' !in s {
        assert SpaceFree(s);
      }
      SplitJoin(scopes, ' ');
      SpaceFreePieces(scopes);
    }
  }

  predicate SpaceFreeClient(client: Client) {
    (forall s :: s in client.scopes ==> SpaceFree(s)) && (client.tenant.Some? ==> SpaceFree(client.tenant.value))
  }

  /** The principal of a self-issued token has exactly the granted internal scopes, and never more than the client's own. */
  lemma PrincipalHasGrantedScopes(client: Client, scope: Option<string>)
    requires SpaceFreeClient(client) && IssueToken(client, scope).Some?
    ensures var granted := SetOf(GrantedScopes(client, scope).value);
            var principal := Resolve(IssueToken(client, scope).value);
            var internal := set s | s in granted && Internal(s);
            && principal.scopes == (if internal == {} && client.tenant.Some? then {TenantScope(client.tenant.value)} else internal)
            && principal.tenant == client.tenant
            && principal.scopes <= SetOf(client.scopes) + (if client.tenant.Some? then {TenantScope(client.tenant.value)} else {})
  {
    var scopes := GrantedScopes(client, scope).value;
    forall s | s in scopes ensures SpaceFree(s) {
      if client.tenant.Some? && s == TenantScope(client.tenant.value) {
        TenantScopeSpaceFree(client.tenant.value);
      }
    }
    ClaimRoundTrips(scopes);
  }

  lemma TenantScopeSpaceFree(tenant: string)
    requires SpaceFree(tenant)
    ensures SpaceFree(TenantScope(tenant))
  {
  }

  // ---- Tenant binding ----

  predicate TenantScopeMatches(scopes: set<string>, tenant: string) {
    ADMIN in scopes || RUNTIME in scopes || TenantScope(tenant) in scopes
  }

  /** A pinned principal must name its own tenant, and its scopes must reach the tenant. */
  predicate BindingPasses(principal: Principal, tenant: string) {
    (principal.tenant.None? || principal.tenant.value == tenant) && TenantScopeMatches(principal.scopes, tenant)
  }

  /** A tenant-bound client passes the binding for its own tenant and for no other, whatever it asks for. */
  lemma BoundClientReachesOwnTenantOnly(client: Client, scope: Option<string>, tenant: string)
    requires SpaceFreeClient(client) && IssueToken(client, scope).Some? && client.tenant.Some?
    requires IdText(client.tenant.value)
    ensures BindingPasses(Resolve(IssueToken(client, scope).value), tenant) <==> tenant == client.tenant.value
  {
    PrincipalHasGrantedScopes(client, scope);
    var own := TenantScope(client.tenant.value);
    assert own in SetOf(GrantedScopes(client, scope).value);
    InternalVocabulary(own);
  }

  /** An unbound one passes exactly through what it is granted: a surface scope, or the scope of that tenant. */
  lemma UnboundClientNeedsScope(client: Client, scope: Option<string>, tenant: string)
    requires SpaceFreeClient(client) && IssueToken(client, scope).Some? && client.tenant.None?
    ensures var granted := GrantedScopes(client, scope).value;
            && (forall s :: s in granted ==> s in client.scopes)
            && (BindingPasses(Resolve(IssueToken(client, scope).value), tenant) <==>
                || "admin" in granted || "runtime" in granted
                || ("tenant:" + tenant in granted && IdText(tenant)))
  {
    PrincipalHasGrantedScopes(client, scope);
    InternalVocabulary("tenant:" + tenant);
    InternalVocabulary("admin");
    InternalVocabulary("runtime");
    if id :| IdText(id) && "tenant:" + tenant == "tenant:" + id {
      assert ("tenant:" + tenant)[|"tenant:"|..] == tenant && ("tenant:" + id)[|"tenant:"|..] == id;
    }
  }
}
