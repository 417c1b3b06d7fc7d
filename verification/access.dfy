/**
 * Single-use access codes for the moderators' log view, and the trail of
 * successful redemptions (`moderator_access`). A code moves from unused to
 * used exactly once, and each such move appends exactly one grant.
 */
module Access {
  import opened Types

  /** `access_codes[guild][code]`; `used_by` and `used_at` appear on redemption. */
  datatype CodeInfo = CodeInfo(created: string, used: bool, usedBy: Option<UserId>, usedAt: Option<string>)

  /** One entry of `moderator_access[guild]`. */
  datatype Grant = Grant(userId: UserId, accessedAt: string, accessCode: string)

  type GuildCodes = map<string, CodeInfo>

  /** The codes of a guild that have been redeemed. */
  function UsedCodes(codes: GuildCodes): set<string>
  {
    set k | k in codes && codes[k].used
  }

  /** `use_access_code` succeeds exactly on a known, unused code of that guild. */
  predicate CanRedeem(codes: map<GuildId, GuildCodes>, g: GuildId, code: string)
  {
    g in codes && code in codes[g] && !codes[g][code].used
  }

  /** The codes the grants name, in order. */
  function GrantCodes(grants: seq<Grant>): (r: seq<string>)
    ensures |r| == |grants|
    ensures forall i :: 0 <= i < |grants| ==> r[i] == grants[i].accessCode
  {
    seq(|grants|, i requires 0 <= i < |grants| => grants[i].accessCode)
  }

  function Elems(s: seq<string>): set<string>
  {
    set x | x in s
  }

  predicate Distinct(s: seq<string>)
  {
    forall i, j :: 0 <= i < j < |s| ==> s[i] != s[j]
  }

  /**
   * One guild's codes and grants agree: the grants name the used codes,
   * each exactly once, each with the user the code records as its redeemer.
   */
  ghost predicate GuildAudit(codes: GuildCodes, grants: seq<Grant>)
  {
    && Distinct(GrantCodes(grants))
    && Elems(GrantCodes(grants)) == UsedCodes(codes)
    && (forall i :: 0 <= i < |grants| ==>
          grants[i].accessCode in codes && codes[grants[i].accessCode].usedBy == Some(grants[i].userId))
    && (forall k :: k in codes ==>
          (codes[k].used <==> codes[k].usedBy.Some?) && (codes[k].used <==> codes[k].usedAt.Some?))
  }

  /** The invariant of the two stores together, for every guild. */
  ghost predicate AuditConsistent(codes: map<GuildId, GuildCodes>, grants: map<GuildId, seq<Grant>>)
  {
    forall g :: g in codes.Keys + grants.Keys ==> GuildAudit(GetOr(codes, g, map[]), GetOr(grants, g, []))
  }

  /** `access_codes.setdefault(g, {})[code] = {created, used: False}` */
  function Issued(codes: map<GuildId, GuildCodes>, g: GuildId, code: string, now: string): (r: map<GuildId, GuildCodes>)
    ensures g in r && code in r[g] && !r[g][code].used
    ensures forall k :: k in GetOr(codes, g, map[]) && k != code ==> k in r[g] && r[g][k] == codes[g][k]
    ensures r[g].Keys == GetOr(codes, g, map[]).Keys + {code}
    ensures forall h :: h != g ==> Get(r, h) == Get(codes, h)
  {
    codes[g := GetOr(codes, g, map[])[code := CodeInfo(now, false, None, None)]]
  }

  /** The code marked used, with its redeemer and time. */
  function Redeemed(codes: map<GuildId, GuildCodes>, g: GuildId, code: string, user: UserId, now: string): map<GuildId, GuildCodes>
    requires CanRedeem(codes, g, code)
  {
    codes[g := codes[g][code := codes[g][code].(used := true, usedBy := Some(user), usedAt := Some(now))]]
  }

  /** `moderator_access.setdefault(g, []).append(grant)` */
  function WithGrant(grants: map<GuildId, seq<Grant>>, g: GuildId, grant: Grant): map<GuildId, seq<Grant>>
  {
    grants[g := GetOr(grants, g, []) + [grant]]
  }

  /**
   * Issuing a code not yet known to the guild makes it redeemable and keeps
   * the stores consistent.
   */
  lemma IssueKeepsAudit(codes: map<GuildId, GuildCodes>, grants: map<GuildId, seq<Grant>>, g: GuildId, code: string, now: string)
    requires AuditConsistent(codes, grants)
    requires code !in GetOr(codes, g, map[])
    ensures var codes' := Issued(codes, g, code, now);
      && AuditConsistent(codes', grants)
      && CanRedeem(codes', g, code)
  {
    var codes' := Issued(codes, g, code, now);
    IssueGuildKeepsAudit(GetOr(codes, g, map[]), GetOr(grants, g, []), code, now);
    forall h | h in codes'.Keys + grants.Keys
      ensures GuildAudit(GetOr(codes', h, map[]), GetOr(grants, h, []))
    {
      if h != g {
        assert GetOr(codes', h, map[]) == GetOr(codes, h, map[]);
      }
    }
  }

  /** One guild: adding an unknown, unused code keeps the guild consistent. */
  lemma IssueGuildKeepsAudit(codes: GuildCodes, gs: seq<Grant>, code: string, now: string)
    requires code !in codes
    requires GuildAudit(codes, gs)
    ensures GuildAudit(codes[code := CodeInfo(now, false, None, None)], gs)
  {
    var codes' := codes[code := CodeInfo(now, false, None, None)];
    assert UsedCodes(codes') == UsedCodes(codes);
  }

  /** One guild: redeeming an unused code and appending its grant keeps the guild consistent. */
  lemma RedeemGuildKeepsAudit(codes: GuildCodes, gs: seq<Grant>, code: string, user: UserId, now: string, accessedAt: string)
    requires GuildAudit(codes, gs)
    requires code in codes && !codes[code].used
    ensures var codes' := codes[code := codes[code].(used := true, usedBy := Some(user), usedAt := Some(now))];
      && GuildAudit(codes', gs + [Grant(user, accessedAt, code)])
      && UsedCodes(codes') == UsedCodes(codes) + {code}
  {
    var codes' := codes[code := codes[code].(used := true, usedBy := Some(user), usedAt := Some(now))];
    var gs' := gs + [Grant(user, accessedAt, code)];
    assert UsedCodes(codes') == UsedCodes(codes) + {code};
    assert GrantCodes(gs') == GrantCodes(gs) + [code];
    assert code !in GrantCodes(gs) by {
      assert code !in UsedCodes(codes);
    }
    assert Elems(GrantCodes(gs')) == Elems(GrantCodes(gs)) + {code};
    assert forall i :: 0 <= i < |gs| ==> gs'[i] == gs[i];
  }

  /**
   * A successful redemption marks the code used by that user, appends
   * exactly one grant naming the user and the code, keeps the stores
   * consistent, and leaves the code unredeemable from then on.
   */
  lemma RedeemKeepsAudit(codes: map<GuildId, GuildCodes>, grants: map<GuildId, seq<Grant>>, g: GuildId, code: string, user: UserId, now: string, accessedAt: string)
    requires AuditConsistent(codes, grants)
    requires CanRedeem(codes, g, code)
    ensures var codes' := Redeemed(codes, g, code, user, now);
      var grants' := WithGrant(grants, g, Grant(user, accessedAt, code));
      && AuditConsistent(codes', grants')
      && !CanRedeem(codes', g, code)
      && UsedCodes(codes'[g]) == UsedCodes(codes[g]) + {code}
      && grants'[g] == GetOr(grants, g, []) + [Grant(user, accessedAt, code)]
  {
    var codes' := Redeemed(codes, g, code, user, now);
    var grants' := WithGrant(grants, g, Grant(user, accessedAt, code));
    RedeemGuildKeepsAudit(codes[g], GetOr(grants, g, []), code, user, now, accessedAt);
    forall h | h in codes'.Keys + grants'.Keys
      ensures GuildAudit(GetOr(codes', h, map[]), GetOr(grants', h, []))
    {
      if h != g {
        assert GetOr(codes', h, map[]) == GetOr(codes, h, map[]);
        assert GetOr(grants', h, []) == GetOr(grants, h, []);
      }
    }
  }

  /** A sequence without repetitions has as many distinct elements as entries. */
  lemma {:induction false} DistinctCardinality(s: seq<string>)
    requires Distinct(s)
    ensures |Elems(s)| == |s|
    decreases |s|
  {
    if |s| > 0 {
      var t := s[..|s| - 1];
      assert s == t + [s[|s| - 1]];
      DistinctCardinality(t);
      assert Elems(s) == Elems(t) + {s[|s| - 1]};
      assert s[|s| - 1] !in Elems(t);
    }
  }

  /**
   * In consistent stores a guild has exactly as many grants as it has used
   * codes: one log access per redemption.
   */
  lemma GrantsCountRedemptions(codes: map<GuildId, GuildCodes>, grants: map<GuildId, seq<Grant>>, g: GuildId)
    requires AuditConsistent(codes, grants)
    ensures |GetOr(grants, g, [])| == |UsedCodes(GetOr(codes, g, map[]))|
  {
    var gs := GetOr(grants, g, []);
    if g in codes.Keys + grants.Keys {
      assert GuildAudit(GetOr(codes, g, map[]), gs);
      DistinctCardinality(GrantCodes(gs));
    }
  }
}
