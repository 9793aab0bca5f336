/** The file-backed validator key and its guard against double signing (privval/file.go). */
module PrivValidator {
  import opened Options

  const STEP_NONE := 0
  const STEP_PROPOSE := 1
  const STEP_PREVOTE := 2
  const STEP_PRECOMMIT := 3

  datatype Kind = Prevote | Precommit

  /** Canonical data, which the sign bytes encode one-to-one. */
  datatype SignBytes =
    | CanonicalVote(chain: nat, kind: Kind, height: int, round: int, block: Option<nat>, time: int)
    | CanonicalProposal(chain: nat, height: int, round: int, polRound: int, block: Option<nat>, time: int)
  {
    function Step(): nat {
      match this
      case CanonicalVote(_, kind, _, _, _, _) => if kind == Prevote then STEP_PREVOTE else STEP_PRECOMMIT
      case CanonicalProposal(_, _, _, _, _, _) => STEP_PROPOSE
    }

    predicate SameButTime(other: SignBytes) {
      this.(time := 0) == other.(time := 0)
    }

    predicate SameSlot(other: SignBytes) {
      height == other.height && round == other.round && Step() == other.Step()
    }
  }

  predicate Less(h: int, r: int, s: int, h': int, r': int, s': int) {
    h < h' || (h == h' && (r < r' || (r == r' && s < s')))
  }

  datatype Checked = Regression | NoSignBytes | SameHRS | NextHRS | NilSignature

  datatype LastSignState = LastSignState(
    height: int, round: int, step: nat, signature: Option<nat>, signBytes: Option<SignBytes>)
  {
    function CheckHRS(h: int, r: int, s: nat): Checked {
      if height > h then Regression
      else if height == h && round > r then Regression
      else if height == h && round == r && step > s then Regression
      else if height == h && round == r && step == s then
        if signBytes.None? then NoSignBytes else if signature.None? then NilSignature else SameHRS
      else NextHRS
    }

    /** The stored sign bytes are those of the stored height, round and step, and come with a signature. */
    predicate Valid() {
      && (signBytes.Some? <==> signature.Some?)
      && (signBytes.None? ==> step == STEP_NONE)
      && (signBytes.Some? ==>
            && signBytes.value.height == height && signBytes.value.round == round
            && signBytes.value.Step() == step)
    }

    predicate Precedes(d: SignBytes) {
      Less(height, round, step, d.height, d.round, d.Step())
    }
  }

  const INITIAL := LastSignState(0, 0, STEP_NONE, None, None)

  /** A request to sign; `extended` says whether a vote carries an extension. */
  datatype Request = Request(data: SignBytes, extended: bool) {
    /** Extensions are for non-nil precommits only. */
    predicate ExtensionAllowed() {
      data.CanonicalVote? && extended ==> data.kind == Precommit && data.block.Some?
    }

    predicate SignsExtension() {
      data.CanonicalVote? && data.kind == Precommit && data.block.Some?
    }
  }

  datatype Crash = NoCrash | BeforeSave | AfterSave

  /** What the key answers, and where the process stops, if it does. */
  datatype Env = Env(signature: Option<nat>, extensionSigned: bool, crash: Crash)

  /** A signature that left the signer. */
  datatype Release = Release(data: SignBytes, signature: nat, anew: bool)

  datatype Panic = NilSignaturePanic | UnmarshalPanic

  datatype Result = Signed(data: SignBytes, signature: nat) | Refused | Crashed | Panicked(panic: Panic)

  /** Signer state: memory, disk, and what was released so far. */
  datatype Signer = Signer(memory: LastSignState, disk: LastSignState, released: seq<Release>) {
    function Outcome(q: Request, e: Env): Result {
      var d := q.data;
      match memory.CheckHRS(d.height, d.round, d.Step())
      case Regression => Refused
      case NoSignBytes => Refused
      case NilSignature => Panicked(NilSignaturePanic)
      case SameHRS =>
        if !ExtensionOk(q, e) then Refused
        else if d == memory.signBytes.value then Signed(d, memory.signature.value)
        else if d.CanonicalVote? != memory.signBytes.value.CanonicalVote? then Panicked(UnmarshalPanic)
        else if d.SameButTime(memory.signBytes.value) then
          Signed(d.(time := memory.signBytes.value.time), memory.signature.value)
        else Refused
      case NextHRS =>
        if !ExtensionOk(q, e) || e.signature.None? then Refused
        else if e.crash == NoCrash then Signed(d, e.signature.value)
        else Crashed
    }

    predicate ExtensionOk(q: Request, e: Env) {
      q.ExtensionAllowed() && (q.SignsExtension() ==> e.extensionSigned)
    }

    predicate SignsAnew(q: Request, e: Env) {
      memory.CheckHRS(q.data.height, q.data.round, q.data.Step()) == NextHRS && ExtensionOk(q, e) && e.signature.Some?
    }

    function Sign(q: Request, e: Env): Signer {
      var s := if SignsAnew(q, e) then Save(q.data, e.signature.value, e.crash) else this;
      match Outcome(q, e)
      case Signed(d, sig) => s.(released := released + [Release(d, sig, SignsAnew(q, e))])
      case _ => s
    }

    /** saveSigned: memory first, then the file; a crash loses memory, and the file changes atomically. */
    function Save(d: SignBytes, sig: nat, crash: Crash): Signer {
      var lss := LastSignState(d.height, d.round, d.Step(), Some(sig), Some(d));
      if crash == BeforeSave then this.(memory := disk) else this.(memory := lss, disk := lss)
    }

    /** A restart reads the file. */
    function Reload(): Signer {
      this.(memory := disk)
    }

    ghost predicate Valid() {
      && memory == disk && disk.Valid()
      && (forall r <- released :: Covered(r))
      && Ordered()
    }

    /** A released signature lies before what the file records, or is what it records. */
    predicate Covered(r: Release) {
      disk.Precedes(r.data) == false &&
      (Less(r.data.height, r.data.round, r.data.Step(), disk.height, disk.round, disk.step)
       || (disk.signBytes == Some(r.data) && disk.signature == Some(r.signature)))
    }

    ghost predicate Ordered() {
      forall i, j :: 0 <= i < j < |released| ==> InOrder(released[i], released[j])
    }
  }

  /** Later releases are for a later slot, or repeat the very same signed data. */
  predicate InOrder(a: Release, b: Release) {
    || Less(a.data.height, a.data.round, a.data.Step(), b.data.height, b.data.round, b.data.Step())
    || (!b.anew && a.data == b.data && a.signature == b.signature)
  }

  /** CheckHRS lets a new signature through exactly when height, round and step grow lexicographically. */
  lemma CheckHRSIsOrder(lss: LastSignState, h: int, r: int, s: nat)
    ensures lss.CheckHRS(h, r, s) == NextHRS <==> Less(lss.height, lss.round, lss.step, h, r, s)
    ensures lss.CheckHRS(h, r, s) == Regression <==> Less(h, r, s, lss.height, lss.round, lss.step)
  {
  }

  /** What is released is the request, up to its time, and is recorded on disk. */
  lemma ReleaseIsRecorded(s: Signer, q: Request, e: Env)
    requires s.Valid() && s.Outcome(q, e).Signed?
    ensures var r := s.Outcome(q, e); var s' := s.Sign(q, e);
            && r.data.SameButTime(q.data) && r.data.SameSlot(q.data)
            && s'.disk.signBytes == Some(r.data) && s'.disk.signature == Some(r.signature)
            && s'.disk.height == r.data.height && s'.disk.round == r.data.round && s'.disk.step == r.data.Step()
  {
  }

  /** An extension comes with a precommit for a block only, and must then be signed too. */
  predicate Admissible(q: Request, e: Env) {
    match q.data
    case CanonicalVote(_, kind, _, _, block, _) =>
      if kind == Precommit && block.Some? then e.extensionSigned else !q.extended
    case CanonicalProposal(_, _, _, _, _, _) => true
  }

  /** A request for a slot after the recorded one is signed, recorded and released, unless the process stops. */
  lemma NewSlotIsSigned(s: Signer, q: Request, e: Env)
    requires s.Valid() && s.disk.Precedes(q.data) && Admissible(q, e) && e.signature.Some?
    ensures var sig := e.signature.value;
            var recorded := LastSignState(q.data.height, q.data.round, q.data.Step(), Some(sig), Some(q.data));
            var s' := s.Sign(q, e);
            match e.crash
            case NoCrash =>
              && s.Outcome(q, e) == Signed(q.data, sig)
              && s' == Signer(recorded, recorded, s.released + [Release(q.data, sig, true)])
            case AfterSave => s.Outcome(q, e) == Crashed && s' == Signer(recorded, recorded, s.released)
            case BeforeSave => s.Outcome(q, e) == Crashed && s' == s
  {
  }

  /** A request that repeats the recorded one, up to its time, is given the recorded data and signature. */
  lemma SameSlotIsRepeated(s: Signer, q: Request, e: Env)
    requires s.Valid() && Admissible(q, e) && s.disk.signBytes.Some? && q.data.SameButTime(s.disk.signBytes.value)
    ensures var d, sig := s.disk.signBytes.value, s.disk.signature.value;
            && s.Outcome(q, e) == Signed(d, sig)
            && s.Sign(q, e) == s.(released := s.released + [Release(d, sig, false)])
  {
    assert q.data.(time := 0).Step() == s.disk.signBytes.value.(time := 0).Step();
  }

  /**
   * Everything else is refused, and changes nothing: an earlier slot, the recorded slot with other data, an extension
   * that is not admissible, and a new slot that the key does not sign.
   */
  lemma RefusedExactly(s: Signer, q: Request, e: Env)
    requires s.Valid()
    ensures s.Outcome(q, e) == Refused <==>
            || Less(q.data.height, q.data.round, q.data.Step(), s.disk.height, s.disk.round, s.disk.step)
            || !Admissible(q, e)
            || (s.disk.Precedes(q.data) && e.signature.None?)
            || (!s.disk.Precedes(q.data) && (s.disk.signBytes.None? || !q.data.SameButTime(s.disk.signBytes.value)))
    ensures s.Outcome(q, e) == Refused ==> s.Sign(q, e) == s
  {
    if s.disk.signBytes.Some? && q.data.SameButTime(s.disk.signBytes.value) {
      assert q.data.(time := 0).Step() == s.disk.signBytes.value.(time := 0).Step();
    }
  }

  lemma {:induction false} SignKeeps(s: Signer, q: Request, e: Env)
    requires s.Valid()
    ensures s.Sign(q, e).Valid() && !s.Outcome(q, e).Panicked?
  {
    var s' := s.Sign(q, e);
    if s.Outcome(q, e).Signed? {
      ReleaseIsRecorded(s, q, e);
    }
    assert s'.Ordered() by {
      forall i, j | 0 <= i < j < |s'.released|
        ensures InOrder(s'.released[i], s'.released[j])
      {
        if j < |s.released| {
          assert InOrder(s.released[i], s.released[j]);
        } else {
          assert s.released[i] in s.released && s.Covered(s.released[i]);
        }
      }
    }
    forall r <- s'.released
      ensures s'.Covered(r)
    {
      if r in s.released {
        assert s.Covered(r);
      }
    }
  }

  // ----- runs ----------------------------------------------------------------------------------

  datatype Event = Ask(request: Request, env: Env) | Restart

  function Apply(s: Signer, ev: Event): Signer {
    match ev
    case Ask(q, e) => s.Sign(q, e)
    case Restart => s.Reload()
  }

  function Run(s: Signer, events: seq<Event>): Signer {
    if events == [] then s else Apply(Run(s, events[..|events| - 1]), events[|events| - 1])
  }

  lemma {:induction false} EveryRunKeeps(events: seq<Event>)
    ensures Run(Signer(INITIAL, INITIAL, []), events).Valid()
  {
    if events != [] {
      EveryRunKeeps(events[..|events| - 1]);
      var s := Run(Signer(INITIAL, INITIAL, []), events[..|events| - 1]);
      match events[|events| - 1]
      case Ask(q, e) => SignKeeps(s, q, e);
      case Restart =>
    }
  }

  /** Over any run with crashes and restarts, two signatures for one height, round and step are one and the same. */
  lemma NoDoubleSigning(events: seq<Event>, i: nat, j: nat)
    requires var rs := Run(Signer(INITIAL, INITIAL, []), events).released;
             i < |rs| && j < |rs| && rs[i].data.SameSlot(rs[j].data)
    ensures var rs := Run(Signer(INITIAL, INITIAL, []), events).released;
            rs[i].data == rs[j].data && rs[i].signature == rs[j].signature
  {
    EveryRunKeeps(events);
    var s := Run(Signer(INITIAL, INITIAL, []), events);
    if i < j {
      assert InOrder(s.released[i], s.released[j]);
    } else if j < i {
      assert InOrder(s.released[j], s.released[i]);
    }
  }

  /** Freshly signed slots strictly increase. */
  lemma FreshSlotsIncrease(events: seq<Event>, i: nat, j: nat)
    requires var rs := Run(Signer(INITIAL, INITIAL, []), events).released; i < j < |rs| && rs[j].anew
    ensures var rs := Run(Signer(INITIAL, INITIAL, []), events).released;
            Less(rs[i].data.height, rs[i].data.round, rs[i].data.Step(),
                 rs[j].data.height, rs[j].data.round, rs[j].data.Step())
  {
    EveryRunKeeps(events);
    var s := Run(Signer(INITIAL, INITIAL, []), events);
    assert InOrder(s.released[i], s.released[j]);
  }

  /** No run panics. */
  lemma RunsDoNotPanic(events: seq<Event>, q: Request, e: Env)
    ensures !Run(Signer(INITIAL, INITIAL, []), events).Outcome(q, e).Panicked?
  {
    EveryRunKeeps(events);
    SignKeeps(Run(Signer(INITIAL, INITIAL, []), events), q, e);
  }

  /** A crash after the file was written loses nothing: asking again, with any time, yields the recorded signature. */
  lemma CrashAfterSaveIsRecovered(s: Signer, q: Request, e: Env, q': Request, e': Env)
    requires s.Valid() && s.SignsAnew(q, e) && e.crash == AfterSave
    requires q'.data.SameButTime(q.data) && q'.ExtensionAllowed() && e'.extensionSigned
    ensures s.Outcome(q, e) == Crashed
    ensures s.Sign(q, e).Reload().Outcome(q', e') == Signed(q.data, e.signature.value)
  {
    assert q'.data.(time := 0).Step() == q.data.(time := 0).Step();
  }

  /** A crash before the file was written leaves no trace of the unreleased signature. */
  lemma CrashBeforeSaveIsForgotten(s: Signer, q: Request, e: Env)
    requires s.Valid() && e.crash == BeforeSave && s.SignsAnew(q, e)
    ensures s.Sign(q, e) == s && s.Outcome(q, e) == Crashed
  {
  }

  // ----- the signer itself ---------------------------------------------------------------------

  class FilePV {
    var height: int
    var round: int
    var step: nat
    var signature: Option<nat>
    var signBytes: Option<SignBytes>
    var file: LastSignState                           // durable
    var released: seq<Release>

    ghost function View(): Signer
      reads this
    {
      Signer(LastSignState(height, round, step, signature, signBytes), file, released)
    }

    constructor ()
      ensures View() == Signer(INITIAL, INITIAL, []) && View().Valid()
    {
      height, round, step, signature, signBytes := 0, 0, STEP_NONE, None, None;
      file, released := INITIAL, [];
    }

    method Reload()
      modifies this
      ensures View() == old(View()).Reload()
    {
      height, round, step, signature, signBytes := file.height, file.round, file.step, file.signature, file.signBytes;
    }

    method SaveSigned(d: SignBytes, sig: nat, crash: Crash)
      modifies this
      ensures View() == old(View()).Save(d, sig, crash)
    {
      height, round, step := d.height, d.round, d.Step();
      signature, signBytes := Some(sig), Some(d);
      if crash == BeforeSave {
        Reload();
        return;
      }
      file := LastSignState(height, round, step, signature, signBytes);
    }

    /** signVote and signProposal, which differ in the extension checks that only votes have. */
    method Sign(q: Request, e: Env) returns (r: Result)
      requires View().Valid()
      modifies this
      ensures r == old(View()).Outcome(q, e) && View() == old(View()).Sign(q, e)
      ensures View().Valid() && !r.Panicked?
      ensures (old(file).Precedes(q.data) && Admissible(q, e) && e.signature.Some? && e.crash == NoCrash) ==>
                && r == Signed(q.data, e.signature.value)
                && released == old(released) + [Release(q.data, e.signature.value, true)]
    {
      ghost var before := View();
      SignKeeps(before, q, e);
      if file.Precedes(q.data) && Admissible(q, e) && e.signature.Some? {
        NewSlotIsSigned(before, q, e);
      }
      hide Signer.Valid;
      var lss := LastSignState(height, round, step, signature, signBytes);
      var d := q.data;
      var checked := lss.CheckHRS(d.height, d.round, d.Step());
      if checked == Regression || checked == NoSignBytes {
        return Refused;
      }
      if checked == NilSignature {
        return Panicked(NilSignaturePanic);
      }
      if q.SignsExtension() {
        if !e.extensionSigned {
          return Refused;
        }
      } else if d.CanonicalVote? && q.extended {
        return Refused;
      }
      if checked == SameHRS {
        if d == lss.signBytes.value {
          r := Signed(d, lss.signature.value);
        } else if d.CanonicalVote? != lss.signBytes.value.CanonicalVote? {
          return Panicked(UnmarshalPanic);
        } else if d.SameButTime(lss.signBytes.value) {
          r := Signed(d.(time := lss.signBytes.value.time), lss.signature.value);
        } else {
          return Refused;
        }
        released := released + [Release(r.data, r.signature, false)];
        return;
      }
      if e.signature.None? {
        return Refused;
      }
      SaveSigned(d, e.signature.value, e.crash);
      if e.crash != NoCrash {
        return Crashed;
      }
      released := released + [Release(d, e.signature.value, true)];
      return Signed(d, e.signature.value);
    }
  }
}
