/** The digest of a joint decision: the streaming computation, what it covers, and what it
    leaves out. */
module DecisionDigests {
  import opened Grid
  import opened World
  import opened Codec
  import opened Hashing
  import opened Decisions
  import opened Wire
  import opened ReplayWire
  import opened Digests
  import Sha256

  // ----- the streaming computation

  function Parameters(a: Action, n: nat): Bytes
    requires n <= 4
  {
    if n == 0 then [] else Parameters(a, n - 1) + Store32(a.Parameter(n - 1))
  }

  lemma ParametersAre(a: Action)
    ensures Parameters(a, 4) == Store32(a.p0) + Store32(a.p1) + Store32(a.p2) + Store32(a.p3)
  {
    hide Store32;
    assert Parameters(a, 1) == Store32(a.p0);
    assert Parameters(a, 2) == Parameters(a, 1) + Store32(a.p1);
    assert Parameters(a, 3) == Parameters(a, 2) + Store32(a.p2);
  }

  lemma SeatIs(s: Seat)
    ensures SeatBytes(s)
         == Store64(s.actor) + Store32(s.action.category) + Store32(s.action.count) + Parameters(s.action, 4)
  {
    hide Store32, Store64, Parameters;
    ParametersAre(s.action);
  }

  method HashSeat(sha: Context, s: Seat)
    requires sha.Valid()
    modifies sha, sha.state, sha.block
    ensures sha.Valid() && sha.fed == old(sha.fed) + SeatBytes(s)
  {
    hide Sha256.Context.Valid, Store32, Store64, SeatBytes;
    ghost var before := sha.fed;
    HashU64(sha, s.actor);
    HashU32(sha, s.action.category);
    HashU32(sha, s.action.count);
    ghost var front := Store64(s.actor) + Store32(s.action.category) + Store32(s.action.count);
    assert sha.fed == before + front;
    var parameter: nat := 0;
    while parameter < 4
      invariant parameter <= 4 && sha.Valid()
      invariant sha.fed == before + (front + Parameters(s.action, parameter))
    {
      HashU32(sha, s.action.Parameter(parameter));
      parameter := parameter + 1;
    }
    SeatIs(s);
  }

  function Seats(d: Decision, n: nat): Bytes
    requires n <= 2
  {
    if n == 0 then [] else Seats(d, n - 1) + SeatBytes(d.SeatAt(n - 1))
  }

  lemma DecisionIs(d: Decision, front: Bytes)
    requires front == Domain(DECISION_DOMAIN) + Store32(d.seatCount) + Store32(d.reserved) + Store64(d.tick) + d.hash
    ensures DecisionBytes(d) == front + Seats(d, 2)
  {
    hide Store32, Store64, SeatBytes, Domain;
    assert Seats(d, 1) == SeatBytes(d.seat0) && Seats(d, 2) == SeatBytes(d.seat0) + SeatBytes(d.seat1);
  }

  /** fd_hash_joint_decision_internal */
  method HashDecision(d: Decision) returns (digest: Digest)
    ensures digest == DecisionHash(Sha256.Hash, d)
  {
    hide Sha256.Context.Valid, Store32, Store64, SeatBytes, Sha256.Hash, Domain, DecisionBytes;
    var sha := StartDomain(DECISION_DOMAIN);
    HashU32(sha, d.seatCount);
    HashU32(sha, d.reserved);
    HashU64(sha, d.tick);
    sha.Update(d.hash);
    ghost var front := sha.fed;
    var seat: nat := 0;
    while seat < 2
      invariant seat <= 2 && fresh(sha) && fresh(sha.state) && fresh(sha.block) && sha.Valid()
      invariant sha.fed == front + Seats(d, seat)
    {
      HashSeat(sha, d.SeatAt(seat));
      seat := seat + 1;
    }
    DecisionIs(d, front);
    digest := sha.Final();
  }

  // ----- what is covered

  lemma DecisionTextLength()
    ensures |Domain(DECISION_DOMAIN)| == 40
  {
  }

  /** Where each field of a decision stands among the hashed bytes. */
  lemma DecisionShows(d: Decision)
    ensures var b := DecisionBytes(d);
            && |b| == 152 && Load32(b, 40) == d.seatCount && Load32(b, 44) == d.reserved && Load64(b, 48) == d.tick
            && b[56..88] == d.hash && Holds(b, 88, SeatBytes(d.seat0)) && Holds(b, 120, SeatBytes(d.seat1))
  {
    DecisionTextLength();
    hide Store32, Store64, Load32, Load64, Domain, SeatBytes;
    var b := DecisionBytes(d);
    assert Holds(b, 0, b);
    Apart(b, 0);
    assert Holds(b, 56, d.hash);
  }

  /** Decisions hash the same bytes exactly when they are the same up to struct sizes and ABI
      numbers. */
  lemma DecisionBytesInjective(d: Decision, e: Decision)
    ensures DecisionBytes(d) == DecisionBytes(e) <==> Staged(d) == Staged(e)
  {
    hide DecisionBytes, SeatBytes, Load32, Load64;
    DecisionShows(d);
    DecisionShows(e);
    SeatPieces(DecisionBytes(d), 88, d.seat0);
    SeatPieces(DecisionBytes(d), 120, d.seat1);
    SeatPieces(DecisionBytes(e), 88, e.seat0);
    SeatPieces(DecisionBytes(e), 120, e.seat1);
    if Staged(d) == Staged(e) { StagedBytesAlike(d, e); }
  }

  lemma StagedBytesAlike(d: Decision, e: Decision)
    requires Staged(d) == Staged(e)
    ensures DecisionBytes(d) == DecisionBytes(e)
  {
    hide Store32, Store64, Domain;
    assert d.hash == e.hash && d.tick == e.tick && d.seatCount == e.seatCount && d.reserved == e.reserved;
    assert SeatBytes(d.seat0) == SeatBytes(e.seat0) && SeatBytes(d.seat1) == SeatBytes(e.seat1);
  }

  // ----- what each kind of digest is taken over

  /** Every digest is taken over bytes that begin with the length and the text of its own
      purpose. */
  lemma HashedBehindText(s: State, d: Decision)
    requires s.WellFormed() && NamesFit(s.entities)
    ensures exists rest :: Prefixed(StateBytes(s), "FrontierDirectorate/State/v1", rest)
    ensures exists rest :: Prefixed(ConfigBytes(s.config), "FrontierDirectorate/Config/v1", rest)
    ensures exists rest :: Prefixed(ContentBytes(s.content), "FrontierDirectorate/Content/v1", rest)
    ensures exists rest :: Prefixed(DecisionBytes(d), "FrontierDirectorate/JointDecision/v1", rest)
  {
    hide Prefixed, Domain, Store32, Store64, PackBytes, TilesBytes, EntitiesBytes, RegionBytes, SeatBytes;
    WorldTexts();
    OtherTexts();
    assert Domain(STATE_DOMAIN) <= StateHead(s) <= StateBytes(s);
    Behind(StateBytes(s), STATE_DOMAIN);
    assert Domain(CONFIG_DOMAIN) <= ConfigBytes(s.config);
    Behind(ConfigBytes(s.config), CONFIG_DOMAIN);
    assert Domain(CONTENT_DOMAIN) <= ContentBytes(s.content);
    Behind(ContentBytes(s.content), CONTENT_DOMAIN);
    assert Domain(DECISION_DOMAIN) <= DecisionBytes(d);
    Behind(DecisionBytes(d), DECISION_DOMAIN);
  }

  predicate Ascii(s: string) { |s| < 100 && forall i :: 0 <= i < |s| ==> s[i] < 128 as char }

  lemma WorldTexts()
    ensures STATE_DOMAIN == "FrontierDirectorate/State/v1" && Ascii(STATE_DOMAIN)
    ensures CONFIG_DOMAIN == "FrontierDirectorate/Config/v1" && Ascii(CONFIG_DOMAIN)
  {
  }

  lemma OtherTexts()
    ensures CONTENT_DOMAIN == "FrontierDirectorate/Content/v1" && Ascii(CONTENT_DOMAIN)
    ensures DECISION_DOMAIN == "FrontierDirectorate/JointDecision/v1" && Ascii(DECISION_DOMAIN)
  {
  }

  lemma Behind(b: Bytes, text: string)
    requires Ascii(text) && Domain(text) <= b
    ensures exists rest :: Prefixed(b, text, rest)
  {
    hide Prefixed, Domain;
    var rest := b[|Domain(text)|..];
    assert b == Domain(text) + rest;
    DomainPrefixes(text, rest);
  }
}
