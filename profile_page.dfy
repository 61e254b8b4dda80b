/** The profile page's impact figures and progress texts (frontend/src/pages/Profile.tsx). */
module ProfilePage {
  import opened Wrappers
  import Text
  import AuthContext

  const ReportsTarget: nat := 20
  const CleanupsTarget: nat := 10
  const NftsTarget: nat := 5

  const LivesPerReport: nat := 150
  const LitresPerCleanup: nat := 5000
  const MarineLivesPerNft: nat := 200

  datatype Impact = Impact(
    pollutionReports: nat,
    livesProtected: nat,
    waterCleaned: nat,
    marineLivesSaved: nat)

  datatype Achievement = Achievement(title: string, count: nat, target: nat)

  datatype ProfileView =
    | LoginPrompt
    | Details(user: AuthContext.User, impact: Impact, achievements: seq<Achievement>)

  /** `impactStats`; the floors of whole-number products are the products. */
  function ImpactOf(u: AuthContext.User): (i: Impact)
    ensures i.pollutionReports == u.reportsSubmitted
    ensures i.livesProtected == LivesPerReport * u.reportsSubmitted
    ensures i.waterCleaned == LitresPerCleanup * u.cleanUpsJoined
    ensures i.marineLivesSaved == MarineLivesPerNft * u.nftsAdopted
  {
    Impact(u.reportsSubmitted, u.reportsSubmitted * 150, u.cleanUpsJoined * 5000, u.nftsAdopted * 200)
  }

  /** `achievements` */
  function AchievementsOf(u: AuthContext.User): (a: seq<Achievement>)
    ensures |a| == 3
    ensures a[0] == Achievement("Reports Filed", u.reportsSubmitted, ReportsTarget)
    ensures a[1] == Achievement("Clean-ups Joined", u.cleanUpsJoined, CleanupsTarget)
    ensures a[2] == Achievement("NFTs Adopted", u.nftsAdopted, NftsTarget)
  {
    [Achievement("Reports Filed", u.reportsSubmitted, 20),
     Achievement("Clean-ups Joined", u.cleanUpsJoined, 10),
     Achievement("NFTs Adopted", u.nftsAdopted, 5)]
  }

  /** What the page renders for the session's user. */
  function View(user: Option<AuthContext.User>): (v: ProfileView)
    ensures user.None? <==> v == LoginPrompt
    ensures user.Some? ==> v == Details(user.value, ImpactOf(user.value), AchievementsOf(user.value))
  {
    match user
    case None => LoginPrompt
    case Some(u) => Details(u, ImpactOf(u), AchievementsOf(u))
  }

  const TargetAchieved: string := "Target achieved! \U{1F389}"

  /** The progress line under an achievement. */
  function Remaining(a: Achievement): (s: string)
    ensures a.count < a.target ==>
      s == Text.NatToDecimal(a.target - a.count) + " more to reach target"
    ensures a.count >= a.target <==> s == TargetAchieved
  {
    if a.target - a.count > 0 then Text.NatToDecimal(a.target - a.count) + " more to reach target"
    else TargetAchieved
  }

  /** The remaining count shown is the number that, added to the count, reaches the target. */
  lemma RemainingReachesTarget(a: Achievement)
    requires a.count < a.target
    ensures Text.DecimalValue(Remaining(a)[..|Text.NatToDecimal(a.target - a.count)|]) + a.count == a.target
  {
    var d := Text.NatToDecimal(a.target - a.count);
    assert Remaining(a)[..|d|] == d;
    Text.DecimalRoundTrip(a.target - a.count);
  }

  /** No freshly logged-in user has reached any target yet. */
  lemma LoginTargetsOpen(email: string, role: AuthContext.UserRole, r1: real, r2: real, r3: real, k: nat)
    requires 0.0 <= r1 < 1.0 && 0.0 <= r2 < 1.0 && 0.0 <= r3 < 1.0
    requires k < 3
    ensures Remaining(AchievementsOf(AuthContext.LoginUser(email, role, r1, r2, r3))[k]) != TargetAchieved
  {
  }

  /** A new sign-up sees the full target as remaining on every achievement. */
  lemma SignupStartsAtZero(u: AuthContext.User, k: nat)
    requires u.reportsSubmitted == 0 && u.cleanUpsJoined == 0 && u.nftsAdopted == 0
    requires k < 3
    ensures var a := AchievementsOf(u)[k];
      Remaining(a) == Text.NatToDecimal(a.target) + " more to reach target"
    ensures ImpactOf(u) == Impact(0, 0, 0, 0)
  {
  }
}
