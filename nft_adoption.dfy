/** The water-body adoption page (frontend/src/pages/NFTAdoption.tsx). */
module NftAdoption {
  import opened Wrappers
  import opened Toasts

  datatype WaterBodyKind = Lake | River | Wetland | Coastal

  /** A listed water body; prices, sizes, features and impact figures are not modelled. */
  datatype WaterBody = WaterBody(
    id: string,
    name: string,
    kind: WaterBodyKind,
    adopted: bool,
    adoptedBy: Option<string>,
    healthScore: int,
    protectionLevel: string)

  /** The page's fixed catalogue. */
  const Catalogue: seq<WaterBody> := [
    WaterBody("NFT001", "Chilika Lake", Lake, false, None, 78, "Premium"),
    WaterBody("NFT002", "Backwaters of Kerala", Wetland, true, Some("EcoWarriors NGO"), 85, "Elite"),
    WaterBody("NFT003", "Yamuna River (Delhi Stretch)", River, false, None, 45, "Basic"),
    WaterBody("NFT004", "Marina Beach Waters", Coastal, false, None, 62, "Premium")
  ]

  const AdoptionSuccessful: Toast := Toast("Adoption Successful! \U{1F389}", false)

  /**
   * `handleAdopt(waterBody)`: the only effect is a toast, so no water body's
   * adoption fields ever change.
   */
  function AdoptToast(signedIn: bool, waterBody: WaterBody): (t: Toast)
    ensures t == AuthenticationRequired <==> !signedIn
    ensures t == AdoptionSuccessful <==> signedIn
    ensures t.destructive <==> !signedIn
  {
    if !signedIn then AuthenticationRequired else AdoptionSuccessful
  }

  /** `getHealthColor(score)` */
  function HealthColor(score: real): (c: string)
    ensures c == "text-success" <==> score >= 80.0
    ensures c == "text-ocean-primary" <==> 60.0 <= score < 80.0
    ensures c == "text-warning" <==> 40.0 <= score < 60.0
    ensures c == "text-destructive" <==> score < 40.0
  {
    if score >= 80.0 then "text-success"
    else if score >= 60.0 then "text-ocean-primary"
    else if score >= 40.0 then "text-warning"
    else "text-destructive"
  }

  /** `getProtectionColor(level)` */
  function ProtectionColor(level: string): (c: string)
    ensures level == "Elite" ==> c == "bg-accent text-accent-foreground"
    ensures level == "Premium" ==> c == "bg-ocean-primary text-primary-foreground"
    ensures level == "Basic" ==> c == "bg-secondary text-secondary-foreground"
    ensures level !in {"Elite", "Premium", "Basic"} ==> c == "bg-muted text-muted-foreground"
  {
    match level
    case "Elite" => "bg-accent text-accent-foreground"
    case "Premium" => "bg-ocean-primary text-primary-foreground"
    case "Basic" => "bg-secondary text-secondary-foreground"
    case _ => "bg-muted text-muted-foreground"
  }

  /** `waterBodies.filter(wb => wb.adopted).length` */
  function TotalAdoptions(bodies: seq<WaterBody>): (n: nat)
    ensures n <= |bodies|
    ensures n == 0 <==> forall i | 0 <= i < |bodies| :: !bodies[i].adopted
  {
    if bodies == [] then 0
    else (if bodies[0].adopted then 1 else 0) + TotalAdoptions(bodies[1..])
  }

  /** The "Available" figure: listed minus adopted. */
  function Available(bodies: seq<WaterBody>): (n: nat)
    ensures n + TotalAdoptions(bodies) == |bodies|
  {
    |bodies| - TotalAdoptions(bodies)
  }

  /** Adopted and available water bodies split the list between them. */
  lemma {:induction false} AvailableCountsUnadopted(bodies: seq<WaterBody>)
    ensures Available(bodies) == |bodies| - TotalAdoptions(bodies)
    ensures TotalAdoptions(bodies) == |bodies| <==> forall i | 0 <= i < |bodies| :: bodies[i].adopted
  {
    if bodies != [] {
      AvailableCountsUnadopted(bodies[1..]);
      assert forall i | 1 <= i < |bodies| :: bodies[i] == bodies[1..][i - 1];
    }
  }

  /** The page opens with one adopted and three available water bodies. */
  lemma CatalogueCounts()
    ensures TotalAdoptions(Catalogue) == 1 && Available(Catalogue) == 3
  {
    assert Catalogue[1..][1..][1..][1..] == [];
  }

  /** Every listed health score picks the colour band its threshold names. */
  lemma CatalogueHealthColors()
    ensures HealthColor(Catalogue[0].healthScore as real) == "text-ocean-primary"
    ensures HealthColor(Catalogue[1].healthScore as real) == "text-success"
    ensures HealthColor(Catalogue[2].healthScore as real) == "text-warning"
    ensures HealthColor(Catalogue[3].healthScore as real) == "text-ocean-primary"
  {
  }
}
