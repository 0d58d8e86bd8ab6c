/**
 * The token policies that close an EndpointDescription (endpoints.go): the one
 * array whose admission floor is larger than its shortest element.
 */
module Endpoints {
  import opened Prelude
  import opened Ints
  import opened Wire
  import opened Messages

  datatype UserTokenPolicy = UserTokenPolicy(policyId: bytes, tokenType: i32, issuedType: bytes, issuerUrl: bytes, policyUri: bytes)

  function EncUserTokenPolicy(l: Bounds, p: UserTokenPolicy): (e: Enc)
    ensures e.Written? ==> |e.data| == 20 + TextOf(p)
  {
    EncOptionalText(l, p.policyId).Then(EncI32(p.tokenType)).Then(EncOptionalText(l, p.issuedType))
      .Then(EncOptionalText(l, p.issuerUrl)).Then(EncOptionalText(l, p.policyUri))
  }

  /** Anonymous, UserName, Certificate or IssuedToken; the writer does not look, the reader refuses any other. */
  predicate Defined(p: UserTokenPolicy) { 0 <= p.tokenType <= 3 }

  function ReadTokenType(buf: bytes, off: nat): Parsed<i32> {
    var (v, next) :- ReadI32(buf, off);
    if 0 <= v <= 3 then Ok(v, next) else Err(DecodingError)
  }

  function ReadUserTokenPolicy(l: Bounds, buf: bytes, off: nat): Parsed<UserTokenPolicy> {
    var (policyId, o1) :- ReadText(l, buf, off);
    var (tokenType, o2) :- ReadTokenType(buf, o1);
    var (issuedType, o3) :- ReadText(l, buf, o2);
    var (issuerUrl, o4) :- ReadText(l, buf, o3);
    var (policyUri, o5) :- ReadText(l, buf, o4);
    Ok(UserTokenPolicy(policyId, tokenType, issuedType, issuerUrl, policyUri), o5)
  }

  lemma UserTokenPolicyReadExactly(l: Bounds, buf: bytes, off: nat, p: UserTokenPolicy)
    requires Stands(buf, off, EncUserTokenPolicy(l, p))
    ensures ReadUserTokenPolicy(l, buf, off) == if Defined(p) then Ok(p, off + Size(EncUserTokenPolicy(l, p))) else Err(DecodingError)
  {
    hide Enc.Then, At, EncOptionalText, ReadText, EncI32, ReadI32;
    var p1 := EncOptionalText(l, p.policyId);
    var p2 := p1.Then(EncI32(p.tokenType));
    var p3 := p2.Then(EncOptionalText(l, p.issuedType));
    var p4 := p3.Then(EncOptionalText(l, p.issuerUrl));
    Split(buf, off, p4, EncOptionalText(l, p.policyUri));
    Split(buf, off, p3, EncOptionalText(l, p.issuerUrl));
    Split(buf, off, p2, EncOptionalText(l, p.issuedType));
    Split(buf, off, p1, EncI32(p.tokenType));
    OptionalTextRoundTrip(l, buf, off, p.policyId);
    I32RoundTrip(buf, off + Size(p1), p.tokenType);
    OptionalTextRoundTrip(l, buf, off + Size(p2), p.issuedType);
    OptionalTextRoundTrip(l, buf, off + Size(p3), p.issuerUrl);
    OptionalTextRoundTrip(l, buf, off + Size(p4), p.policyUri);
  }

  /** The shortest policy is twenty bytes: four null strings and an enumeration. */
  function Policies(l: Bounds): Format<UserTokenPolicy> {
    Format(x => Defined(x), x => EncUserTokenPolicy(l, x), (buf, off) => ReadUserTokenPolicy(l, buf, off), x => x, 20)
  }

  lemma PoliciesLawful(l: Bounds)
    ensures Lawful(Policies(l))
  {
    hide At, EncUserTokenPolicy, ReadUserTokenPolicy;
    forall x, buf, off: nat | Policies(l).ok(x) && Stands(buf, off, Policies(l).enc(x))
      ensures Policies(l).read(buf, off) == Ok(Policies(l).canon(x), off + Size(Policies(l).enc(x)))
    {
      UserTokenPolicyReadExactly(l, buf, off, x);
    }
  }

  lemma PoliciesReady(l: Bounds, ps: seq<UserTokenPolicy>)
    ensures Lawful(Policies(l)) && MapSeq(Policies(l).canon, ps) == ps
  {
    PoliciesLawful(l);
    hide Codec;
    MapSeqIdentity(Policies(l).canon, ps);
  }

  /** A policy of an undefined type anywhere in the list makes the reader refuse the list. */
  lemma {:induction false} UndefinedPolicyIsRefused(l: Bounds, ps: seq<UserTokenPolicy>, buf: bytes, off: nat)
    requires Stands(buf, off, EncAll(Policies(l).enc, ps)) && !Every(Policies(l).ok, ps)
    ensures ReadAll(Policies(l).read, |ps|, buf, off) == Err(DecodingError)
    decreases |ps|
  {
    hide At, EncUserTokenPolicy, ReadUserTokenPolicy;
    var rest := EncAll(Policies(l).enc, ps[1..]);
    Split(buf, off, EncUserTokenPolicy(l, ps[0]), rest);
    UserTokenPolicyReadExactly(l, buf, off, ps[0]);
    if Defined(ps[0]) {
      UndefinedPolicyIsRefused(l, ps[1..], buf, off + Size(EncUserTokenPolicy(l, ps[0])));
    }
  }

  lemma UndefinedPoliciesAreRefused(l: Bounds, ps: seq<UserTokenPolicy>, buf: bytes, off: nat)
    requires Stands(buf, off, EncList(l, Policies(l), ps)) && !Every(Policies(l).ok, ps)
    ensures ReadPolicies(l, buf, off) == Err(DecodingError)
  {
    hide At, EncAll, ReadAll, Every, EncI32, ReadI32, Policies;
    Split(buf, off, EncArrayLength(l, |ps|), EncAll(Policies(l).enc, ps));
    I32RoundTrip(buf, off, |ps|);
    UndefinedPolicyIsRefused(l, ps, buf, off + 4);
  }

  const POLICY_ADMISSION := 24

  /** The reader of the policy array, which asks for twenty-four bytes a policy. */
  function ReadPolicies(l: Bounds, buf: bytes, off: nat): Parsed<seq<UserTokenPolicy>> {
    ReadArray(l, Policies(l).read, POLICY_ADMISSION, buf, off)
  }

  /** The end of an EndpointDescription: its policies, transport profile and security level. */
  function EncEndpointTail(l: Bounds, ps: seq<UserTokenPolicy>, profile: bytes, level: byte): Enc {
    EncList(l, Policies(l), ps).Then(EncString(l, profile).Then(EncByte(level)))
  }

  /** Bytes of text in a policy, and in all of them. */
  function TextOf(p: UserTokenPolicy): nat { |p.policyId| + |p.issuedType| + |p.issuerUrl| + |p.policyUri| }

  function AllText(ps: seq<UserTokenPolicy>): nat {
    if ps == [] then 0 else TextOf(ps[0]) + AllText(ps[1..])
  }

  lemma {:induction false} PoliciesSize(l: Bounds, ps: seq<UserTokenPolicy>)
    requires EncAll(Policies(l).enc, ps).Written?
    ensures |EncAll(Policies(l).enc, ps).data| == 20 * |ps| + AllText(ps)
  {
    hide EncUserTokenPolicy;
    if ps != [] {
      PoliciesSize(l, ps[1..]);
    }
  }

  /** The tail of a description that ends its message leaves this many bytes after the policy count. */
  lemma TailSize(l: Bounds, buf: bytes, off: nat, ps: seq<UserTokenPolicy>, profile: bytes, level: byte)
    requires Stands(buf, off, EncEndpointTail(l, ps, profile, level))
    ensures Stands(buf, off, EncList(l, Policies(l), ps))
    ensures Size(EncEndpointTail(l, ps, profile, level)) == 4 + 20 * |ps| + AllText(ps) + 5 + |profile|
  {
    hide At, Policies, EncString, EncAll;
    Split(buf, off, EncList(l, Policies(l), ps), EncString(l, profile).Then(EncByte(level)));
    assert EncAll(Policies(l).enc, ps).Written?;
    PoliciesSize(l, ps);
  }

  /**
   * A description that ends its message is read back exactly when every policy is
   * of a defined type and their text makes up for the four bytes a policy that the
   * floor asks beyond the shortest encoding; otherwise the reader refuses what the
   * writer wrote.
   */
  lemma PoliciesReadExactly(l: Bounds, buf: bytes, off: nat, ps: seq<UserTokenPolicy>, profile: bytes, level: byte)
    requires Stands(buf, off, EncEndpointTail(l, ps, profile, level))
    requires |buf| == off + Size(EncEndpointTail(l, ps, profile, level))
    ensures ReadPolicies(l, buf, off)
      == if Every(Policies(l).ok, ps) && 4 * |ps| <= AllText(ps) + |profile| + 5 then Ok(ps, off + Size(EncList(l, Policies(l), ps)))
         else Err(DecodingError)
  {
    hide Policies, EncEndpointTail, AllText, Codec, At, ReadArray, EncArray, MapSeq, Every, ReadPolicies;
    TailSize(l, buf, off, ps, profile, level);
    if Every(Policies(l).ok, ps) {
      DefinedPoliciesReadExactly(l, buf, off, ps);
    } else {
      UndefinedPoliciesAreRefused(l, ps, buf, off);
    }
  }

  lemma DefinedPoliciesReadExactly(l: Bounds, buf: bytes, off: nat, ps: seq<UserTokenPolicy>)
    requires Stands(buf, off, EncList(l, Policies(l), ps)) && Every(Policies(l).ok, ps)
    ensures ReadPolicies(l, buf, off)
      == if |ps| * POLICY_ADMISSION <= |buf| - (off + 4) then Ok(ps, off + Size(EncList(l, Policies(l), ps))) else Err(DecodingError)
  {
    hide Policies, Codec, At, ReadArray, EncArray, MapSeq, Every;
    PoliciesReady(l, ps);
    var f := Policies(l);
    ArrayReadExactly(l, f.ok, f.enc, f.read, f.canon, f.floor, POLICY_ADMISSION, ps, buf, off);
  }

  /** Two policies with no text and no transport profile are written but not read. */
  lemma ShortPoliciesAreRefused(l: Bounds)
    requires l.maxArrayLength >= 2
    ensures var p := UserTokenPolicy([], 0, [], [], []);
      var e := EncEndpointTail(l, [p, p], [], 0);
      e.Written? && ReadPolicies(l, e.data, 0).Err?
  {
  }

}
