/**
 * The router's TLS-object migration (schema step 4 to 5) as a function of the
 * route table: every route whose legacy certificate and key are set gets one
 * `route_certificates` row pointing at a `certificates` row; certificates are
 * stored once per SHA-256 digest of the trimmed certificate body. The SQL
 * itself, the database and the hash implementation are outside the model: the
 * tables are sequences and the digest is a function parameter.
 */
module TlsDedup {
  import opened Wrappers
  import opened Whitespace

  /** The hex form of the SHA-256 digest of a certificate body. */
  type Digest = string

  /** A row of `http_routes`; the legacy TLS columns are nullable. */
  datatype Route = Route(
    id: nat,
    parentRef: string,
    service: string,
    domain: string,
    legacyTlsCert: Option<string>,
    legacyTlsKey: Option<string>)

  /** A row of `certificates`; its id is its position in the table. */
  datatype Certificate = Certificate(cert: string, key: string, certSha256: Digest)

  /** A row of `route_certificates`. */
  datatype RouteCertificate = RouteCertificate(httpRouteId: nat, certificateId: nat)

  /** The two tables the migration fills. */
  datatype Tables = Tables(certificates: seq<Certificate>, routeCertificates: seq<RouteCertificate>)

  /** A digest already stored for a different certificate body. */
  datatype DedupError = IntegrityViolation(digest: Digest)

  /** The result of one insert-or-get: the certificate table and the id of the row. */
  datatype Stored = Stored(certificates: seq<Certificate>, certificateId: nat)

  /** The tables as the migration creates them. */
  const NoTables: Tables := Tables([], [])

  /** The route carries a certificate and a key, both non-empty once trimmed. */
  predicate HasLegacyCert(r: Route) {
    && r.legacyTlsCert.Some? && r.legacyTlsKey.Some?
    && TrimSpace(r.legacyTlsCert.value) != "" && TrimSpace(r.legacyTlsKey.value) != ""
  }

  /** The normalised certificate body of a route. */
  function CertBody(r: Route): string
    requires HasLegacyCert(r)
  {
    TrimSpace(r.legacyTlsCert.value)
  }

  /** The normalised key of a route. */
  function CertKey(r: Route): string
    requires HasLegacyCert(r)
  {
    TrimSpace(r.legacyTlsKey.value)
  }

  /** The first row of `certs` with digest `d`, if any (the lookup on the unique digest column). */
  function FindDigest(certs: seq<Certificate>, d: Digest): (r: Option<nat>)
    ensures r.Some? ==> r.value < |certs| && certs[r.value].certSha256 == d
    ensures r.Some? ==> forall i :: 0 <= i < r.value ==> certs[i].certSha256 != d
    ensures r.None? ==> forall i :: 0 <= i < |certs| ==> certs[i].certSha256 != d
  {
    if |certs| == 0 then None
    else if certs[0].certSha256 == d then Some(0)
    else match FindDigest(certs[1..], d)
      case None => None
      case Some(i) => Some(i + 1)
  }

  /**
   * Insert-or-get keyed by digest: the row with that digest if its body is the
   * same, a new row (body, key, digest) if there is none, and an integrity
   * violation if the digest belongs to another body.
   */
  function GetOrCreate(certs: seq<Certificate>, cert: string, key: string, digest: Digest): (r: Result<Stored, DedupError>)
    ensures r.Ok? ==> r.value.certificateId < |r.value.certificates|
    ensures r.Ok? ==> r.value.certificates[r.value.certificateId].cert == cert
    ensures r.Ok? ==> r.value.certificates[r.value.certificateId].certSha256 == digest
    ensures r.Ok? && FindDigest(certs, digest).Some? ==> r.value.certificates == certs
    ensures r.Ok? && FindDigest(certs, digest).None? ==> r.value.certificates == certs + [Certificate(cert, key, digest)]
    ensures r.Err? ==> r.error == IntegrityViolation(digest)
    ensures r.Err? ==> exists i :: 0 <= i < |certs| && certs[i].certSha256 == digest && certs[i].cert != cert
  {
    match FindDigest(certs, digest)
    case Some(i) => if certs[i].cert == cert then Ok(Stored(certs, i)) else Err(IntegrityViolation(digest))
    case None => Ok(Stored(certs + [Certificate(cert, key, digest)], |certs|))
  }

  /** One iteration of the migration over a route row. */
  function Visit(t: Tables, r: Route, sha256: string -> Digest): (v: Result<Tables, DedupError>)
    ensures !HasLegacyCert(r) ==> v == Ok(t)
    ensures v.Err? ==> HasLegacyCert(r) && v.error == IntegrityViolation(sha256(CertBody(r)))
    ensures v.Ok? ==> t.certificates <= v.value.certificates && t.routeCertificates <= v.value.routeCertificates
    ensures v.Ok? && HasLegacyCert(r) ==>
      && |v.value.routeCertificates| == |t.routeCertificates| + 1
      && var l := v.value.routeCertificates[|t.routeCertificates|];
         && l.httpRouteId == r.id
         && l.certificateId < |v.value.certificates|
         && v.value.certificates[l.certificateId].cert == CertBody(r)
  {
    if !HasLegacyCert(r) then Ok(t)
    else
      match GetOrCreate(t.certificates, CertBody(r), CertKey(r), sha256(CertBody(r)))
      case Err(e) => Err(e)
      case Ok(s) => Ok(Tables(s.certificates, t.routeCertificates + [RouteCertificate(r.id, s.certificateId)]))
  }

  /** The tables after the migration has scanned `routes` in order, starting from `t0`; the first error ends it. */
  function Migrated(t0: Tables, routes: seq<Route>, sha256: string -> Digest): (r: Result<Tables, DedupError>)
    ensures r.Ok? ==> t0.certificates <= r.value.certificates && t0.routeCertificates <= r.value.routeCertificates
    decreases |routes|
  {
    if routes == [] then Ok(t0)
    else
      match Migrated(t0, routes[..|routes| - 1], sha256)
      case Err(e) => Err(e)
      case Ok(t) => Visit(t, routes[|routes| - 1], sha256)
  }

  /** The routes that carry a certificate, in scan order. */
  function CertRoutes(routes: seq<Route>): (r: seq<Route>)
    ensures |r| <= |routes|
    decreases |routes|
  {
    if routes == [] then []
    else
      var init, last := routes[..|routes| - 1], routes[|routes| - 1];
      assert routes == init + [last];
      CertRoutes(init) + (if HasLegacyCert(last) then [last] else [])
  }

  /** The distinct normalised certificate bodies among `routes`. */
  function Bodies(routes: seq<Route>): set<string>
    decreases |routes|
  {
    if routes == [] then {}
    else
      var init, last := routes[..|routes| - 1], routes[|routes| - 1];
      assert routes == init + [last];
      Bodies(init) + (if HasLegacyCert(last) then {CertBody(last)} else {})
  }

  /** The key of the first route in `routes` whose body is `b`: the key stored with `b`. */
  function FirstKey(routes: seq<Route>, b: string): string
    requires b in Bodies(routes)
    decreases |routes|
  {
    var init, last := routes[..|routes| - 1], routes[|routes| - 1];
    assert routes == init + [last];
    if b in Bodies(init) then FirstKey(init, b) else CertKey(last)
  }

  /** The key stored with a body is the key of a route that carries that body. */
  lemma {:induction false} FirstKeyIsAKey(routes: seq<Route>, b: string)
    requires b in Bodies(routes)
    ensures exists j :: 0 <= j < |routes| && HasLegacyCert(routes[j]) && CertBody(routes[j]) == b && CertKey(routes[j]) == FirstKey(routes, b)
    decreases |routes|
  {
    var init, last := routes[..|routes| - 1], routes[|routes| - 1];
    assert routes == init + [last];
    if b in Bodies(init) {
      FirstKeyIsAKey(init, b);
      var j :| 0 <= j < |init| && HasLegacyCert(init[j]) && CertBody(init[j]) == b && CertKey(init[j]) == FirstKey(init, b);
      assert routes[j] == init[j];
    } else {
      assert routes[|routes| - 1] == last;
    }
  }

  /** The certificate routes are the routes with a certificate. */
  lemma {:induction false} CertRoutesMembers(routes: seq<Route>)
    ensures forall x :: x in CertRoutes(routes) <==> x in routes && HasLegacyCert(x)
    decreases |routes|
  {
    if routes != [] {
      var init, last := routes[..|routes| - 1], routes[|routes| - 1];
      assert routes == init + [last];
      CertRoutesMembers(init);
    }
  }

  /** The bodies stored in a certificate table. */
  function TableBodies(certs: seq<Certificate>): set<string> {
    set i | 0 <= i < |certs| :: certs[i].cert
  }

  /** Every route id occurs once (ids are the table's primary key). */
  predicate DistinctIds(routes: seq<Route>) {
    forall i, j :: 0 <= i < |routes| && 0 <= j < |routes| && routes[i].id == routes[j].id ==> i == j
  }

  /**
   * What holds of the tables after scanning `routes` from empty tables: one link
   * per certificate route, in order, pointing at the row holding its body; each
   * row's digest is the hash of its body and digests are unique; the stored
   * bodies are exactly the distinct bodies met, each with the key of the first
   * route that carried it.
   */
  ghost predicate Consistent(t: Tables, routes: seq<Route>, sha256: string -> Digest) {
    && LinksMatch(t.certificates, t.routeCertificates, CertRoutes(routes))
    && DigestsMatch(t.certificates, sha256)
    && DigestsUnique(t.certificates)
    && TableBodies(t.certificates) == Bodies(routes)
    && |t.certificates| == |Bodies(routes)|
    && KeysMatch(t.certificates, routes)
  }

  /** Link `j` joins the `j`th route of `cr` to the row holding that route's body. */
  ghost predicate LinksMatch(certs: seq<Certificate>, links: seq<RouteCertificate>, cr: seq<Route>) {
    && |links| == |cr|
    && forall j :: 0 <= j < |links| ==>
         && links[j].httpRouteId == cr[j].id
         && links[j].certificateId < |certs|
         && HasLegacyCert(cr[j])
         && certs[links[j].certificateId].cert == CertBody(cr[j])
  }

  /** Each row's digest is the hash of its body. */
  ghost predicate DigestsMatch(certs: seq<Certificate>, sha256: string -> Digest) {
    forall i :: 0 <= i < |certs| ==> certs[i].certSha256 == sha256(certs[i].cert)
  }

  /** No digest occurs in two rows (the unique index on `cert_sha256`). */
  ghost predicate DigestsUnique(certs: seq<Certificate>) {
    forall i, j :: 0 <= i < |certs| && 0 <= j < |certs| && certs[i].certSha256 == certs[j].certSha256 ==> i == j
  }

  /** Each row holds a body met in `routes`, with the key of the first route that carried it. */
  ghost predicate KeysMatch(certs: seq<Certificate>, routes: seq<Route>) {
    forall i :: 0 <= i < |certs| ==> certs[i].cert in Bodies(routes) && certs[i].key == FirstKey(routes, certs[i].cert)
  }

  lemma {:induction false} TableBodiesAppend(certs: seq<Certificate>, c: Certificate)
    ensures TableBodies(certs + [c]) == TableBodies(certs) + {c.cert}
  {
    var a, b := TableBodies(certs + [c]), TableBodies(certs) + {c.cert};
    forall x | x in a ensures x in b {
      var i :| 0 <= i < |certs + [c]| && (certs + [c])[i].cert == x;
      if i < |certs| { assert certs[i].cert == x; }
    }
    forall x | x in b ensures x in a {
      if x == c.cert {
        assert (certs + [c])[|certs|].cert == x;
      } else {
        var i :| 0 <= i < |certs| && certs[i].cert == x;
        assert (certs + [c])[i].cert == x;
      }
    }
  }

  /** The distinct bodies of `routes + [r]`: those of `routes`, and `r`'s if it has a certificate. */
  lemma {:induction false} BodiesSnoc(routes: seq<Route>, r: Route)
    ensures Bodies(routes + [r]) == Bodies(routes) + (if HasLegacyCert(r) then {CertBody(r)} else {})
  {
    assert (routes + [r])[..|routes|] == routes;
  }

  /** The certificate routes of `routes + [r]`: those of `routes`, then `r` if it has a certificate. */
  lemma {:induction false} CertRoutesSnoc(routes: seq<Route>, r: Route)
    ensures CertRoutes(routes + [r]) == CertRoutes(routes) + (if HasLegacyCert(r) then [r] else [])
  {
    assert (routes + [r])[..|routes|] == routes;
  }

  /** A body met in `routes` keeps its first key when a route is appended. */
  lemma {:induction false} FirstKeySnoc(routes: seq<Route>, r: Route)
    ensures forall b :: b in Bodies(routes) ==> FirstKey(routes + [r], b) == FirstKey(routes, b)
  {
    assert (routes + [r])[..|routes|] == routes;
    BodiesSnoc(routes, r);
  }

  lemma {:induction false} LinksAppend(certs: seq<Certificate>, links: seq<RouteCertificate>, cr: seq<Route>, r: Route, id: nat)
    requires LinksMatch(certs, links, cr) && HasLegacyCert(r)
    requires id < |certs| && certs[id].cert == CertBody(r)
    ensures LinksMatch(certs, links + [RouteCertificate(r.id, id)], cr + [r])
  {
    var links', cr' := links + [RouteCertificate(r.id, id)], cr + [r];
    forall j | 0 <= j < |links'|
      ensures links'[j].httpRouteId == cr'[j].id && links'[j].certificateId < |certs|
      ensures HasLegacyCert(cr'[j]) && certs[links'[j].certificateId].cert == CertBody(cr'[j])
    {
      if j < |links| {
        assert links'[j] == links[j] && cr'[j] == cr[j];
      }
    }
  }

  lemma {:induction false} LinksExtendTable(certs: seq<Certificate>, links: seq<RouteCertificate>, cr: seq<Route>, c: Certificate)
    requires LinksMatch(certs, links, cr)
    ensures LinksMatch(certs + [c], links, cr)
  {
    forall j | 0 <= j < |links|
      ensures (certs + [c])[links[j].certificateId] == certs[links[j].certificateId]
    {
    }
  }

  lemma {:induction false} DigestsInsert(certs: seq<Certificate>, c: Certificate, sha256: string -> Digest)
    requires DigestsMatch(certs, sha256) && DigestsUnique(certs)
    requires c.certSha256 == sha256(c.cert)
    requires forall i :: 0 <= i < |certs| ==> certs[i].certSha256 != c.certSha256
    ensures DigestsMatch(certs + [c], sha256) && DigestsUnique(certs + [c])
  {
    var certs' := certs + [c];
    forall i | 0 <= i < |certs'| ensures certs'[i].certSha256 == sha256(certs'[i].cert) {
      if i < |certs| { assert certs'[i] == certs[i]; }
    }
    forall i, j | 0 <= i < |certs'| && 0 <= j < |certs'| && certs'[i].certSha256 == certs'[j].certSha256
      ensures i == j
    {
      if i < |certs| { assert certs'[i] == certs[i]; }
      if j < |certs| { assert certs'[j] == certs[j]; }
    }
  }

  lemma {:induction false} KeysExtendRoutes(certs: seq<Certificate>, routes: seq<Route>, r: Route)
    requires KeysMatch(certs, routes)
    ensures KeysMatch(certs, routes + [r])
  {
    BodiesSnoc(routes, r);
    FirstKeySnoc(routes, r);
  }

  lemma {:induction false} KeysInsert(certs: seq<Certificate>, routes: seq<Route>, r: Route, d: Digest)
    requires KeysMatch(certs, routes) && HasLegacyCert(r) && CertBody(r) !in Bodies(routes)
    ensures KeysMatch(certs + [Certificate(CertBody(r), CertKey(r), d)], routes + [r])
  {
    BodiesSnoc(routes, r);
    FirstKeySnoc(routes, r);
    var certs' := certs + [Certificate(CertBody(r), CertKey(r), d)];
    var rs' := routes + [r];
    assert FirstKey(rs', CertBody(r)) == CertKey(r);
    forall i | 0 <= i < |certs'|
      ensures certs'[i].cert in Bodies(rs') && certs'[i].key == FirstKey(rs', certs'[i].cert)
    {
      if i < |certs| { assert certs'[i] == certs[i]; }
    }
  }

  /** A certificate-less route changes nothing. */
  lemma {:induction false} VisitSkipKeepsConsistent(t: Tables, routes: seq<Route>, r: Route, sha256: string -> Digest)
    requires Consistent(t, routes, sha256) && !HasLegacyCert(r)
    ensures Consistent(t, routes + [r], sha256)
  {
    BodiesSnoc(routes, r);
    CertRoutesSnoc(routes, r);
    KeysExtendRoutes(t.certificates, routes, r);
  }

  /** A route whose body is already stored gets a link to that row; the table is unchanged. */
  lemma {:induction false} VisitReuseKeepsConsistent(t: Tables, routes: seq<Route>, r: Route, sha256: string -> Digest, i: nat)
    requires Consistent(t, routes, sha256) && HasLegacyCert(r)
    requires i < |t.certificates| && t.certificates[i].cert == CertBody(r)
    ensures Consistent(Tables(t.certificates, t.routeCertificates + [RouteCertificate(r.id, i)]), routes + [r], sha256)
  {
    var rs', links' := routes + [r], t.routeCertificates + [RouteCertificate(r.id, i)];
    assert Bodies(rs') == Bodies(routes) by {
      BodiesSnoc(routes, r);
      assert t.certificates[i].cert in TableBodies(t.certificates);
    }
    assert LinksMatch(t.certificates, links', CertRoutes(rs')) by {
      CertRoutesSnoc(routes, r);
      LinksAppend(t.certificates, t.routeCertificates, CertRoutes(routes), r, i);
    }
    assert KeysMatch(t.certificates, rs') by {
      KeysExtendRoutes(t.certificates, routes, r);
    }
  }

  /** A route with a body not yet stored adds one row with its body, key and digest, and a link to it. */
  lemma {:induction false} VisitInsertKeepsConsistent(t: Tables, routes: seq<Route>, r: Route, sha256: string -> Digest)
    requires Consistent(t, routes, sha256) && HasLegacyCert(r)
    requires FindDigest(t.certificates, sha256(CertBody(r))).None?
    ensures var c := Certificate(CertBody(r), CertKey(r), sha256(CertBody(r)));
      Consistent(Tables(t.certificates + [c], t.routeCertificates + [RouteCertificate(r.id, |t.certificates|)]), routes + [r], sha256)
  {
    var certs, b := t.certificates, CertBody(r);
    var c := Certificate(b, CertKey(r), sha256(b));
    var rs', links' := routes + [r], t.routeCertificates + [RouteCertificate(r.id, |certs|)];
    assert b !in Bodies(routes);
    assert Bodies(rs') == Bodies(routes) + {b} by {
      BodiesSnoc(routes, r);
    }
    assert TableBodies(certs + [c]) == Bodies(rs') by {
      TableBodiesAppend(certs, c);
    }
    assert LinksMatch(certs + [c], links', CertRoutes(rs')) by {
      CertRoutesSnoc(routes, r);
      LinksExtendTable(certs, t.routeCertificates, CertRoutes(routes), c);
      LinksAppend(certs + [c], t.routeCertificates, CertRoutes(routes), r, |certs|);
    }
    assert DigestsMatch(certs + [c], sha256) && DigestsUnique(certs + [c]) by {
      DigestsInsert(certs, c, sha256);
    }
    assert KeysMatch(certs + [c], rs') by {
      KeysInsert(certs, routes, r, sha256(b));
    }
  }

  /** Each iteration keeps the tables consistent with the routes scanned so far. */
  lemma {:induction false} VisitKeepsConsistent(t: Tables, routes: seq<Route>, r: Route, sha256: string -> Digest)
    requires Consistent(t, routes, sha256) && Visit(t, r, sha256).Ok?
    ensures Consistent(Visit(t, r, sha256).value, routes + [r], sha256)
  {
    if !HasLegacyCert(r) {
      VisitSkipKeepsConsistent(t, routes, r, sha256);
    } else {
      match FindDigest(t.certificates, sha256(CertBody(r)))
      case Some(i) =>
        VisitReuseKeepsConsistent(t, routes, r, sha256, i);
      case None =>
        VisitInsertKeepsConsistent(t, routes, r, sha256);
    }
  }

  /** Once the scan fails, the rest of the routes do not matter: the step fails with that error. */
  lemma {:induction false} MigratedErrorStops(t0: Tables, routes: seq<Route>, sha256: string -> Digest, k: nat)
    requires k <= |routes| && Migrated(t0, routes[..k], sha256).Err?
    ensures Migrated(t0, routes, sha256) == Migrated(t0, routes[..k], sha256)
    decreases |routes|
  {
    if k < |routes| {
      var init := routes[..|routes| - 1];
      assert init[..k] == routes[..k];
      MigratedErrorStops(t0, init, sha256, k);
    } else {
      assert routes[..k] == routes;
    }
  }

  /** A successful migration from empty tables leaves them consistent with the whole route table. */
  lemma {:induction false} MigratedConsistent(routes: seq<Route>, sha256: string -> Digest)
    requires Migrated(NoTables, routes, sha256).Ok?
    ensures Consistent(Migrated(NoTables, routes, sha256).value, routes, sha256)
    decreases |routes|
  {
    if routes == [] {
      assert TableBodies([]) == {};
    } else {
      var init, last := routes[..|routes| - 1], routes[|routes| - 1];
      assert routes == init + [last];
      MigratedConsistent(init, sha256);
      VisitKeepsConsistent(Migrated(NoTables, init, sha256).value, init, last, sha256);
    }
  }

  /**
   * Row counts: one `route_certificates` row per route with a certificate, and
   * one `certificates` row per distinct trimmed certificate body.
   */
  lemma {:induction false} MigratedRowCounts(routes: seq<Route>, sha256: string -> Digest)
    requires Migrated(NoTables, routes, sha256).Ok?
    ensures |Migrated(NoTables, routes, sha256).value.routeCertificates| == |CertRoutes(routes)|
    ensures |Migrated(NoTables, routes, sha256).value.certificates| == |Bodies(routes)|
  {
    MigratedConsistent(routes, sha256);
  }

  /** Every stored digest is the hash of the stored (trimmed) body, and no digest is stored twice. */
  lemma {:induction false} MigratedDigests(routes: seq<Route>, sha256: string -> Digest)
    requires Migrated(NoTables, routes, sha256).Ok?
    ensures var certs := Migrated(NoTables, routes, sha256).value.certificates;
      && (forall i :: 0 <= i < |certs| ==> certs[i].certSha256 == sha256(certs[i].cert))
      && (forall i, j :: 0 <= i < |certs| && 0 <= j < |certs| && certs[i].certSha256 == certs[j].certSha256 ==> i == j)
  {
    MigratedConsistent(routes, sha256);
  }

  /**
   * The migration fails only on a digest collision: if the hash tells the
   * distinct bodies apart, it succeeds.
   */
  lemma {:induction false} MigratedSucceeds(routes: seq<Route>, sha256: string -> Digest)
    requires forall a, b :: a in Bodies(routes) && b in Bodies(routes) && sha256(a) == sha256(b) ==> a == b
    ensures Migrated(NoTables, routes, sha256).Ok?
    decreases |routes|
  {
    if routes != [] {
      var init, last := routes[..|routes| - 1], routes[|routes| - 1];
      assert routes == init + [last];
      BodiesSnoc(init, last);
      MigratedSucceeds(init, sha256);
      var t := Migrated(NoTables, init, sha256).value;
      MigratedConsistent(init, sha256);
      if HasLegacyCert(last) {
        var b := CertBody(last);
        match FindDigest(t.certificates, sha256(b))
        case None =>
        case Some(i) =>
          assert t.certificates[i].cert in TableBodies(t.certificates);
          assert t.certificates[i].cert == b;
      }
    }
  }

  /** The certificate id of the first `route_certificates` row for `routeId`. */
  function LinkedCertificateId(links: seq<RouteCertificate>, routeId: nat): (r: Option<nat>)
    ensures r.Some? ==> exists j :: 0 <= j < |links| && links[j].httpRouteId == routeId && links[j].certificateId == r.value
    ensures r.None? ==> forall j :: 0 <= j < |links| ==> links[j].httpRouteId != routeId
  {
    if links == [] then None
    else if links[0].httpRouteId == routeId then Some(links[0].certificateId)
    else
      var r := LinkedCertificateId(links[1..], routeId);
      if r.Some? then
        var j :| 0 <= j < |links[1..]| && links[1..][j].httpRouteId == routeId && links[1..][j].certificateId == r.value;
        assert links[j + 1] == links[1..][j];
        r
      else r
  }

  /** The read side: `routes LEFT JOIN route_certificates LEFT JOIN certificates` for one route. */
  function JoinedCertificate(t: Tables, routeId: nat): (r: Option<Certificate>)
    ensures r.Some? ==>
      exists j ::
        && 0 <= j < |t.routeCertificates|
        && t.routeCertificates[j].httpRouteId == routeId
        && t.routeCertificates[j].certificateId < |t.certificates|
        && t.certificates[t.routeCertificates[j].certificateId] == r.value
    ensures (forall j :: 0 <= j < |t.routeCertificates| ==> t.routeCertificates[j].httpRouteId != routeId) ==> r == None
  {
    match LinkedCertificateId(t.routeCertificates, routeId)
    case None => None
    case Some(c) => if c < |t.certificates| then Some(t.certificates[c]) else None
  }

  /** Two rows of a table with unique ids that have the same id are the same row. */
  lemma {:induction false} SameIdSameRoute(routes: seq<Route>, x: Route, y: Route)
    requires DistinctIds(routes) && x in routes && y in routes && x.id == y.id
    ensures x == y
  {
    var i :| 0 <= i < |routes| && routes[i] == x;
    var j :| 0 <= j < |routes| && routes[j] == y;
  }

  /** The routes with a certificate of a table with unique ids have unique ids too. */
  lemma {:induction false} CertRoutesDistinct(routes: seq<Route>)
    requires DistinctIds(routes)
    ensures DistinctIds(CertRoutes(routes))
    decreases |routes|
  {
    if routes != [] {
      var init, last := routes[..|routes| - 1], routes[|routes| - 1];
      assert routes == init + [last];
      assert DistinctIds(init) by {
        forall i, j | 0 <= i < |init| && 0 <= j < |init| && init[i].id == init[j].id ensures i == j {
          assert init[i] == routes[i] && init[j] == routes[j];
        }
      }
      CertRoutesDistinct(init);
      CertRoutesSnoc(init, last);
      if HasLegacyCert(last) {
        var cr := CertRoutes(init);
        forall x | x in cr ensures x.id != last.id {
          CertRoutesMembers(init);
          var i :| 0 <= i < |init| && init[i] == x;
          assert routes[i] == x;
        }
        var cr' := cr + [last];
        forall i, j | 0 <= i < |cr'| && 0 <= j < |cr'| && cr'[i].id == cr'[j].id ensures i == j {
          if i < |cr| { assert cr'[i] == cr[i] && cr[i] in cr; }
          if j < |cr| { assert cr'[j] == cr[j] && cr[j] in cr; }
        }
      }
    }
  }

  /** After the migration, no route has two `route_certificates` rows. */
  lemma {:induction false} MigratedLinksUnique(routes: seq<Route>, sha256: string -> Digest)
    requires Migrated(NoTables, routes, sha256).Ok? && DistinctIds(routes)
    ensures var links := Migrated(NoTables, routes, sha256).value.routeCertificates;
      forall j, j' :: 0 <= j < |links| && 0 <= j' < |links| && links[j].httpRouteId == links[j'].httpRouteId ==> j == j'
  {
    MigratedConsistent(routes, sha256);
    CertRoutesDistinct(routes);
  }

  /** In consistent tables, a certificate route's link points at the row for its body. */
  lemma {:induction false} ConsistentLink(t: Tables, routes: seq<Route>, sha256: string -> Digest, r: Route)
    requires Consistent(t, routes, sha256) && DistinctIds(routes)
    requires r in routes && HasLegacyCert(r)
    ensures var c := LinkedCertificateId(t.routeCertificates, r.id);
      && c.Some? && c.value < |t.certificates|
      && t.certificates[c.value].cert == CertBody(r)
      && t.certificates[c.value].certSha256 == sha256(CertBody(r))
      && t.certificates[c.value].key == FirstKey(routes, CertBody(r))
  {
    var cr, links := CertRoutes(routes), t.routeCertificates;
    assert r in cr by {
      CertRoutesMembers(routes);
    }
    var j :| 0 <= j < |cr| && cr[j] == r;
    assert links[j].httpRouteId == r.id;
    var c := LinkedCertificateId(links, r.id);
    var j' :| 0 <= j' < |links| && links[j'].httpRouteId == r.id && links[j'].certificateId == c.value;
    assert cr[j'] == r by {
      CertRoutesMembers(routes);
      assert cr[j'] in cr;
      SameIdSameRoute(routes, cr[j'], r);
    }
  }

  /** In consistent tables, a route without a certificate has no link. */
  lemma {:induction false} ConsistentNoLink(t: Tables, routes: seq<Route>, sha256: string -> Digest, r: Route)
    requires Consistent(t, routes, sha256) && DistinctIds(routes)
    requires r in routes && !HasLegacyCert(r)
    ensures LinkedCertificateId(t.routeCertificates, r.id).None?
  {
    var cr, links := CertRoutes(routes), t.routeCertificates;
    forall j | 0 <= j < |links| ensures links[j].httpRouteId != r.id {
      assert cr[j] in routes && HasLegacyCert(cr[j]) by {
        CertRoutesMembers(routes);
        assert cr[j] in cr;
      }
    }
  }

  /**
   * After the migration, a route with a certificate is linked to the row that
   * holds its trimmed body, whose digest is the hash of that body and whose key
   * is the trimmed key of the first route with that body.
   */
  lemma {:induction false} MigratedLink(routes: seq<Route>, sha256: string -> Digest, r: Route)
    requires Migrated(NoTables, routes, sha256).Ok? && DistinctIds(routes)
    requires r in routes && HasLegacyCert(r)
    ensures var t := Migrated(NoTables, routes, sha256).value;
      var c := LinkedCertificateId(t.routeCertificates, r.id);
      && c.Some? && c.value < |t.certificates|
      && t.certificates[c.value].cert == CertBody(r)
      && t.certificates[c.value].certSha256 == sha256(CertBody(r))
      && CertBody(r) in Bodies(routes)
      && t.certificates[c.value].key == FirstKey(routes, CertBody(r))
  {
    MigratedConsistent(routes, sha256);
    ConsistentLink(Migrated(NoTables, routes, sha256).value, routes, sha256, r);
  }

  /**
   * What the join returns after the migration: nothing (not an empty
   * certificate) for a route without one; otherwise the certificate whose body
   * is the route's trimmed certificate, with the matching digest and, when all
   * routes with that body agree on the key, the route's trimmed key.
   */
  lemma {:induction false} MigratedJoin(routes: seq<Route>, sha256: string -> Digest, r: Route)
    requires Migrated(NoTables, routes, sha256).Ok? && DistinctIds(routes) && r in routes
    ensures var j := JoinedCertificate(Migrated(NoTables, routes, sha256).value, r.id);
      && (!HasLegacyCert(r) ==> j == None)
      && (HasLegacyCert(r) ==> j.Some? && j.value.cert == CertBody(r) && j.value.certSha256 == sha256(CertBody(r)))
      && (HasLegacyCert(r) && (forall x :: x in routes && HasLegacyCert(x) && CertBody(x) == CertBody(r) ==> CertKey(x) == CertKey(r)) ==>
            j.value.key == CertKey(r))
  {
    var t := Migrated(NoTables, routes, sha256).value;
    if HasLegacyCert(r) {
      MigratedLink(routes, sha256, r);
      var k := FirstKey(routes, CertBody(r));
      FirstKeyIsAKey(routes, CertBody(r));
      var i :| 0 <= i < |routes| && HasLegacyCert(routes[i]) && CertBody(routes[i]) == CertBody(r) && CertKey(routes[i]) == k;
      assert routes[i] in routes;
    } else {
      assert LinkedCertificateId(t.routeCertificates, r.id).None? by {
        MigratedConsistent(routes, sha256);
        ConsistentNoLink(t, routes, sha256, r);
      }
    }
  }

  /** Dedup: routes whose trimmed certificate bodies are equal are linked to one and the same row. */
  lemma {:induction false} MigratedShareCertificate(routes: seq<Route>, sha256: string -> Digest, a: Route, b: Route)
    requires Migrated(NoTables, routes, sha256).Ok? && DistinctIds(routes)
    requires a in routes && b in routes && HasLegacyCert(a) && HasLegacyCert(b) && CertBody(a) == CertBody(b)
    ensures var links := Migrated(NoTables, routes, sha256).value.routeCertificates;
      LinkedCertificateId(links, a.id).Some? && LinkedCertificateId(links, a.id) == LinkedCertificateId(links, b.id)
  {
    MigratedConsistent(routes, sha256);
    MigratedLink(routes, sha256, a);
    MigratedLink(routes, sha256, b);
  }

  /** The routes agree with `routes[i]` on the trimmed key wherever they agree on the trimmed certificate. */
  predicate KeyAgreesAt(routes: seq<Route>, i: nat)
    requires i < |routes|
  {
    HasLegacyCert(routes[i]) ==>
      forall j :: 0 <= j < |routes| && HasLegacyCert(routes[j]) && CertBody(routes[j]) == CertBody(routes[i]) ==>
        CertKey(routes[j]) == CertKey(routes[i])
  }

  /** Route `id` joins a certificate whose trimmed body and key are those of `cert` and `key`, with the body's digest. */
  predicate JoinsTo(t: Tables, id: nat, cert: string, key: string, sha256: string -> Digest) {
    var j := JoinedCertificate(t, id);
    && j.Some?
    && TrimSpace(j.value.cert) == TrimSpace(cert)
    && TrimSpace(j.value.key) == TrimSpace(key)
    && j.value.certSha256 == sha256(TrimSpace(cert))
  }

  /** A certificate route whose key is the only one stored with its body joins its own trimmed certificate and key. */
  lemma {:induction false} MigratedJoinsTo(routes: seq<Route>, sha256: string -> Digest, i: nat, cert: string, key: string)
    requires Migrated(NoTables, routes, sha256).Ok? && DistinctIds(routes)
    requires i < |routes| && KeyAgreesAt(routes, i)
    requires HasLegacyCert(routes[i]) && CertBody(routes[i]) == TrimSpace(cert) && CertKey(routes[i]) == TrimSpace(key)
    ensures JoinsTo(Migrated(NoTables, routes, sha256).value, routes[i].id, cert, key, sha256)
  {
    var r := routes[i];
    forall x | x in routes && HasLegacyCert(x) && CertBody(x) == CertBody(r) ensures CertKey(x) == CertKey(r) {
      var j :| 0 <= j < |routes| && routes[j] == x;
    }
    MigratedJoin(routes, sha256, r);
    TrimSpaceIdempotent(cert);
    TrimSpaceIdempotent(key);
  }

  /** The shape of the scenario: four routes with a certificate, the last one without. */
  predicate FiveRoutesShape(r0: Route, r1: Route, r2: Route, r3: Route, r4: Route) {
    HasLegacyCert(r0) && HasLegacyCert(r1) && HasLegacyCert(r2) && HasLegacyCert(r3) && !HasLegacyCert(r4)
  }

  lemma {:induction false} FiveBodies(r0: Route, r1: Route, r2: Route, r3: Route, r4: Route)
    requires FiveRoutesShape(r0, r1, r2, r3, r4)
    ensures Bodies([r0, r1, r2, r3, r4]) == {CertBody(r0), CertBody(r1), CertBody(r2), CertBody(r3)}
  {
    var b0, b1, b2, b3 := CertBody(r0), CertBody(r1), CertBody(r2), CertBody(r3);
    assert Bodies([r0]) == {b0} by {
      BodiesSnoc([], r0);
      assert [] + [r0] == [r0];
    }
    assert Bodies([r0, r1]) == {b0, b1} by {
      BodiesSnoc([r0], r1);
      assert [r0] + [r1] == [r0, r1];
    }
    assert Bodies([r0, r1, r2]) == {b0, b1, b2} by {
      BodiesSnoc([r0, r1], r2);
      assert [r0, r1] + [r2] == [r0, r1, r2];
    }
    assert Bodies([r0, r1, r2, r3]) == {b0, b1, b2, b3} by {
      BodiesSnoc([r0, r1, r2], r3);
      assert [r0, r1, r2] + [r3] == [r0, r1, r2, r3];
    }
    BodiesSnoc([r0, r1, r2, r3], r4);
    assert [r0, r1, r2, r3] + [r4] == [r0, r1, r2, r3, r4];
  }

  lemma {:induction false} FiveCertRoutes(r0: Route, r1: Route, r2: Route, r3: Route, r4: Route)
    requires FiveRoutesShape(r0, r1, r2, r3, r4)
    ensures CertRoutes([r0, r1, r2, r3, r4]) == [r0, r1, r2, r3]
  {
    CertRoutesSnoc([], r0);
    assert [] + [r0] == [r0];
    CertRoutesSnoc([r0], r1);
    assert [r0] + [r1] == [r0, r1];
    CertRoutesSnoc([r0, r1], r2);
    assert [r0, r1] + [r2] == [r0, r1, r2];
    CertRoutesSnoc([r0, r1, r2], r3);
    assert [r0, r1, r2] + [r3] == [r0, r1, r2, r3];
    CertRoutesSnoc([r0, r1, r2, r3], r4);
    assert [r0, r1, r2, r3] + [r4] == [r0, r1, r2, r3, r4];
  }

  /** With the first three bodies distinct and the fourth route a copy of the third, every route's key agrees. */
  lemma {:induction false} FiveKeyAt(r0: Route, r1: Route, r2: Route, r3: Route, r4: Route, i: nat)
    requires i < 5 && FiveRoutesShape(r0, r1, r2, r3, r4)
    requires CertBody(r0) != CertBody(r1) && CertBody(r1) != CertBody(r2) && CertBody(r0) != CertBody(r2)
    requires CertBody(r3) == CertBody(r2) && CertKey(r3) == CertKey(r2)
    ensures KeyAgreesAt([r0, r1, r2, r3, r4], i)
  {
  }

  /** The whitespace the scenario wraps around the reused certificate and key. */
  const CertPrefix: string := "  \n\n  \n "
  const CertSuffix: string := "   \n   \n   "
  const KeyPrefix: string := "    \n   "
  const KeySuffix: string := "   \n   \n  "

  /**
   * A route table of the TLS-object scenario shape, ids assigned 1 to 5 in
   * insert order: four routes with a certificate and key each, and a fifth
   * without one.
   */
  function ScenarioRoutes(c0: string, c1: string, c2: string, c3: string, k0: string, k1: string, k2: string, k3: string): seq<Route> {
    [ Route(1, "some/parent/ref/0", "migrationtest0.example.org", "migrationtest0.example.org", Some(c0), Some(k0)),
      Route(2, "some/parent/ref/1", "migrationtest1.example.org", "migrationtest1.example.org", Some(c1), Some(k1)),
      Route(3, "some/parent/ref/2", "migrationtest2.example.org", "migrationtest2.example.org", Some(c2), Some(k2)),
      Route(4, "some/parent/ref/3", "migrationtest3.example.org", "migrationtest3.example.org", Some(c3), Some(k3)),
      Route(5, "some/parent/ref/4", "migrationtest4.example.org", "migrationtest4.example.org", None, None) ]
  }

  /**
   * The scenario's certificates: the first three are non-empty and distinct once
   * trimmed, the fourth route's certificate and key trim to the third's.
   */
  predicate ScenarioInputs(c0: string, c1: string, c2: string, c3: string, k0: string, k1: string, k2: string, k3: string) {
    && TrimSpace(c0) != "" && TrimSpace(c1) != "" && TrimSpace(c2) != ""
    && TrimSpace(k0) != "" && TrimSpace(k1) != "" && TrimSpace(k2) != ""
    && TrimSpace(c0) != TrimSpace(c1) && TrimSpace(c1) != TrimSpace(c2) && TrimSpace(c0) != TrimSpace(c2)
    && TrimSpace(c3) == TrimSpace(c2) && TrimSpace(k3) == TrimSpace(k2)
  }

  /** What the scenario's inputs say about its route rows. */
  lemma {:induction false} ScenarioShape(c0: string, c1: string, c2: string, c3: string, k0: string, k1: string, k2: string, k3: string)
    requires ScenarioInputs(c0, c1, c2, c3, k0, k1, k2, k3)
    ensures var rs := ScenarioRoutes(c0, c1, c2, c3, k0, k1, k2, k3);
      && FiveRoutesShape(rs[0], rs[1], rs[2], rs[3], rs[4])
      && CertBody(rs[0]) == TrimSpace(c0) && CertBody(rs[1]) == TrimSpace(c1)
      && CertBody(rs[2]) == TrimSpace(c2) && CertBody(rs[3]) == TrimSpace(c2)
      && CertKey(rs[0]) == TrimSpace(k0) && CertKey(rs[1]) == TrimSpace(k1)
      && CertKey(rs[2]) == TrimSpace(k2) && CertKey(rs[3]) == TrimSpace(k2)
      && DistinctIds(rs)
  {
    var rs := ScenarioRoutes(c0, c1, c2, c3, k0, k1, k2, k3);
    assert forall i :: 0 <= i < |rs| ==> rs[i].id == i + 1;
  }

  /** Five routes of the scenario's shape with three distinct bodies migrate to three certificate rows and four links. */
  lemma {:induction false} FiveMigrated(r0: Route, r1: Route, r2: Route, r3: Route, r4: Route, sha256: string -> Digest)
    requires FiveRoutesShape(r0, r1, r2, r3, r4)
    requires CertBody(r0) != CertBody(r1) && CertBody(r1) != CertBody(r2) && CertBody(r0) != CertBody(r2)
    requires CertBody(r3) == CertBody(r2)
    requires sha256(CertBody(r0)) != sha256(CertBody(r1)) && sha256(CertBody(r1)) != sha256(CertBody(r2))
    requires sha256(CertBody(r0)) != sha256(CertBody(r2))
    ensures var m := Migrated(NoTables, [r0, r1, r2, r3, r4], sha256);
      && m.Ok?
      && |m.value.certificates| == 3
      && |m.value.routeCertificates| == 4
  {
    var rs := [r0, r1, r2, r3, r4];
    var b0, b1, b2 := CertBody(r0), CertBody(r1), CertBody(r2);
    assert Bodies(rs) == {b0, b1, b2} by {
      FiveBodies(r0, r1, r2, r3, r4);
    }
    assert |CertRoutes(rs)| == 4 by {
      FiveCertRoutes(r0, r1, r2, r3, r4);
    }
    MigratedThreeBodies(rs, sha256, b0, b1, b2);
  }

  /** Three distinct bodies with distinct digests over four certificate routes make three rows and four links. */
  lemma {:induction false} MigratedThreeBodies(routes: seq<Route>, sha256: string -> Digest, b0: string, b1: string, b2: string)
    requires Bodies(routes) == {b0, b1, b2} && |CertRoutes(routes)| == 4
    requires b0 != b1 && b1 != b2 && b0 != b2
    requires sha256(b0) != sha256(b1) && sha256(b1) != sha256(b2) && sha256(b0) != sha256(b2)
    ensures var m := Migrated(NoTables, routes, sha256);
      && m.Ok?
      && |m.value.certificates| == 3
      && |m.value.routeCertificates| == 4
  {
    assert |Bodies(routes)| == 3;
    MigratedSucceeds(routes, sha256);
    MigratedRowCounts(routes, sha256);
  }

  /** The scenario's migration succeeds with three certificate rows and four links. */
  lemma {:induction false} ScenarioCounts(c0: string, c1: string, c2: string, c3: string, k0: string, k1: string, k2: string, k3: string,
                                          sha256: string -> Digest)
    requires ScenarioInputs(c0, c1, c2, c3, k0, k1, k2, k3)
    requires sha256(TrimSpace(c0)) != sha256(TrimSpace(c1)) && sha256(TrimSpace(c1)) != sha256(TrimSpace(c2))
    requires sha256(TrimSpace(c0)) != sha256(TrimSpace(c2))
    ensures var m := Migrated(NoTables, ScenarioRoutes(c0, c1, c2, c3, k0, k1, k2, k3), sha256);
      && m.Ok?
      && |m.value.certificates| == 3
      && |m.value.routeCertificates| == 4
  {
    var rs := ScenarioRoutes(c0, c1, c2, c3, k0, k1, k2, k3);
    ScenarioShape(c0, c1, c2, c3, k0, k1, k2, k3);
    assert rs == [rs[0], rs[1], rs[2], rs[3], rs[4]];
    FiveMigrated(rs[0], rs[1], rs[2], rs[3], rs[4], sha256);
  }

  /**
   * The TLS-object scenario: with three certificates distinct once trimmed whose
   * digests differ, and a fourth route whose certificate and key trim to the
   * third's, the migration succeeds with three certificate rows and four links;
   * each of the first four routes joins the certificate whose trimmed body and
   * key are its own, with the digest of the trimmed body; the fifth joins
   * nothing.
   */
  lemma {:induction false} TlsObjectScenario(c0: string, c1: string, c2: string, c3: string, k0: string, k1: string, k2: string, k3: string,
                                             sha256: string -> Digest)
    requires ScenarioInputs(c0, c1, c2, c3, k0, k1, k2, k3)
    requires sha256(TrimSpace(c0)) != sha256(TrimSpace(c1)) && sha256(TrimSpace(c1)) != sha256(TrimSpace(c2))
    requires sha256(TrimSpace(c0)) != sha256(TrimSpace(c2))
    ensures var m := Migrated(NoTables, ScenarioRoutes(c0, c1, c2, c3, k0, k1, k2, k3), sha256);
      && m.Ok?
      && |m.value.certificates| == 3
      && |m.value.routeCertificates| == 4
      && JoinedCertificate(m.value, 5) == None
      && JoinsTo(m.value, 1, c0, k0, sha256) && JoinsTo(m.value, 2, c1, k1, sha256)
      && JoinsTo(m.value, 3, c2, k2, sha256) && JoinsTo(m.value, 4, c2, k2, sha256)
  {
    var rs := ScenarioRoutes(c0, c1, c2, c3, k0, k1, k2, k3);
    ScenarioCounts(c0, c1, c2, c3, k0, k1, k2, k3, sha256);
    ScenarioShape(c0, c1, c2, c3, k0, k1, k2, k3);
    var r0, r1, r2, r3, r4 := rs[0], rs[1], rs[2], rs[3], rs[4];
    assert rs == [r0, r1, r2, r3, r4];
    MigratedJoin(rs, sha256, r4);
    FiveKeyAt(r0, r1, r2, r3, r4, 0);
    FiveKeyAt(r0, r1, r2, r3, r4, 1);
    FiveKeyAt(r0, r1, r2, r3, r4, 2);
    FiveKeyAt(r0, r1, r2, r3, r4, 3);
    MigratedJoinsTo(rs, sha256, 0, c0, k0);
    MigratedJoinsTo(rs, sha256, 1, c1, k1);
    MigratedJoinsTo(rs, sha256, 2, c2, k2);
    MigratedJoinsTo(rs, sha256, 3, c2, k2);
  }

  /** The test's padding around a certificate and a key is removed by trimming. */
  lemma {:induction false} ScenarioPaddingTrims(c: string, k: string)
    ensures TrimSpace(CertPrefix + c + CertSuffix) == TrimSpace(c)
    ensures TrimSpace(KeyPrefix + k + KeySuffix) == TrimSpace(k)
  {
    assert AllSpace(CertPrefix) && AllSpace(CertSuffix) && AllSpace(KeyPrefix) && AllSpace(KeySuffix);
    TrimSpaceIgnoresPadding(CertPrefix, c, CertSuffix);
    TrimSpaceIgnoresPadding(KeyPrefix, k, KeySuffix);
  }

  /**
   * The scenario with the padding the test uses: the fourth route carries the
   * third's certificate and key wrapped in spaces and newlines.
   */
  lemma {:induction false} TlsObjectScenarioPadded(c0: string, c1: string, c2: string, k0: string, k1: string, k2: string,
                                                   sha256: string -> Digest)
    requires TrimSpace(c0) != "" && TrimSpace(c1) != "" && TrimSpace(c2) != ""
    requires TrimSpace(k0) != "" && TrimSpace(k1) != "" && TrimSpace(k2) != ""
    requires TrimSpace(c0) != TrimSpace(c1) && TrimSpace(c1) != TrimSpace(c2) && TrimSpace(c0) != TrimSpace(c2)
    requires sha256(TrimSpace(c0)) != sha256(TrimSpace(c1)) && sha256(TrimSpace(c1)) != sha256(TrimSpace(c2))
    requires sha256(TrimSpace(c0)) != sha256(TrimSpace(c2))
    ensures var m := Migrated(NoTables, ScenarioRoutes(c0, c1, c2, CertPrefix + c2 + CertSuffix, k0, k1, k2, KeyPrefix + k2 + KeySuffix), sha256);
      && m.Ok?
      && |m.value.certificates| == 3
      && |m.value.routeCertificates| == 4
      && JoinedCertificate(m.value, 5) == None
      && JoinsTo(m.value, 4, c2, k2, sha256)
  {
    ScenarioPaddingTrims(c2, k2);
    TlsObjectScenario(c0, c1, c2, CertPrefix + c2 + CertSuffix, k0, k1, k2, KeyPrefix + k2 + KeySuffix, sha256);
  }
}
