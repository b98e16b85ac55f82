/** The Blueprint configurator's fixed catalogue (my-app/src/components/sections/Blueprint.tsx
    lines 29-357): four departments, each with four packages, and the lookup of a package by
    its id. Only the fields the configurator's logic reads are kept: id, name, the
    "recommended" badge and the list of included items. */
module BlueprintPackages {
  import opened Wrappers

  datatype Department = Security | Solar | Networking | Digital

  /** The department's id, as the source spells it. */
  function DepartmentId(d: Department): (r: string)
    ensures |r| > 0
  {
    match d
    case Security => "security"
    case Solar => "solar"
    case Networking => "networking"
    case Digital => "digital"
  }

  datatype Package = Package(id: string, name: string, recommended: bool, includes: seq<string>)

  const SecurityPackages: seq<Package> := [
    Package("essential-security", "Essential Security", false, [
      "2\U{2013}4 cameras (Analog/Wi-Fi/IP based on budget)",
      "Basic DVR/NVR recorder",
      "Mobile app viewing",
      "Night vision coverage",
      "1 week storage"]),
    Package("standard-security", "Standard Security", false, [
      "4 IP cameras (Wi-Fi if wiring difficult)",
      "HD quality recording",
      "Advanced mobile app",
      "Motion detection alerts",
      "2 weeks storage",
      "Professional installation"]),
    Package("recommended-security", "Recommended Security", true, [
      "6\U{2013}8 IP cameras (indoor + outdoor)",
      "Full HD recording",
      "Extended storage (1 month)",
      "Smart motion zones",
      "Weatherproof outdoor cameras",
      "Multiple user access",
      "Free maintenance (3 months)"]),
    Package("advanced-security", "Advanced Security", false, [
      "8\U{2013}16+ cameras (IP/hybrid analytics)",
      "4K quality options",
      "License plate recognition",
      "Face detection (optional)",
      "Cloud backup option",
      "Centralized monitoring",
      "24/7 support + maintenance"])
  ]

  const SolarPackages: seq<Package> := [
    Package("essential-solar", "Essential Solar", false, [
      "1\U{2013}2 kW solar system",
      "Lights, fans, router backup",
      "Phone charging",
      "CCTV power backup",
      "3\U{2013}5 hours backup",
      "Basic battery storage"]),
    Package("standard-solar", "Standard Solar", false, [
      "3\U{2013}5 kW solar system",
      "Lights, fans, TV, fridge",
      "Small appliances",
      "6\U{2013}8 hours backup",
      "Bill reduction 40\U{2013}60%",
      "Hybrid inverter option"]),
    Package("recommended-solar", "Recommended Solar", true, [
      "6\U{2013}10 kW solar system",
      "Full home/office coverage",
      "Net metering ready",
      "Bill reduction 70\U{2013}90%",
      "8+ hours backup",
      "Premium panels + inverter",
      "25-year panel warranty"]),
    Package("advanced-solar", "Advanced Solar", false, [
      "10\U{2013}20+ kW system",
      "Commercial scale coverage",
      "Heavy appliances + AC",
      "Net metering + grid tie",
      "Battery bank for 24/7 operation",
      "Monitoring system",
      "ROI in 2\U{2013}4 years"])
  ]

  const NetworkingPackages: seq<Package> := [
    Package("essential-networking", "Essential Networking", false, [
      "Router setup + configuration",
      "Basic Wi-Fi coverage",
      "Secure password setup",
      "1\U{2013}2 wired points (optional)",
      "Speed optimization"]),
    Package("standard-networking", "Standard Networking", false, [
      "Router + network switch",
      "Improved Wi-Fi coverage",
      "Multiple wired points",
      "Basic security (firewall)",
      "Guest network setup",
      "Cable management"]),
    Package("recommended-networking", "Recommended Networking", true, [
      "Router + managed switch",
      "Structured cabling system",
      "Multiple access points",
      "Network optimization",
      "Port labeling + documentation",
      "VLAN setup (optional)",
      "3 months support"]),
    Package("advanced-networking", "Advanced Networking", false, [
      "Enterprise router + switches",
      "VLAN + firewall configuration",
      "Redundancy + failover",
      "Centralized management",
      "Network monitoring",
      "Security hardening",
      "24/7 support + SLA"])
  ]

  const DigitalPackages: seq<Package> := [
    Package("essential-digital", "Essential Digital", false, [
      "Basic business website/landing page",
      "Google Business setup",
      "Basic digital presence",
      "Simple contact & inquiry form",
      "Mobile-responsive design",
      "Domain + hosting setup"]),
    Package("standard-digital", "Standard Digital", false, [
      "Professional website",
      "Basic management software",
      "Online inquiry & lead handling",
      "Email & basic automation",
      "Performance & security setup",
      "Training session"]),
    Package("recommended-digital", "Recommended Digital", true, [
      "Custom software solution",
      "POS / Inventory / Billing system",
      "Website + admin dashboard",
      "Reporting & analytics",
      "User training & documentation",
      "Mobile app (optional)",
      "6 months support"]),
    Package("advanced-digital", "Advanced Digital", false, [
      "Fully customized ecosystem",
      "Cloud-based systems",
      "Multi-branch management",
      "Integrations (payments, ERP, CRM)",
      "Data security & backups",
      "Ongoing technical support",
      "Scalable architecture"])
  ]

  /** `getCurrentPackages`: the department's table. Every table has four packages with
      pairwise different ids, and the third one, and only that one, carries the
      "recommended" badge. */
  function Packages(d: Department): (r: seq<Package>)
    ensures |r| == 4
    ensures forall i, j :: 0 <= i < j < |r| ==> r[i].id != r[j].id
    ensures forall i :: 0 <= i < |r| ==> (r[i].recommended <==> i == 2)
    ensures forall i :: 0 <= i < |r| ==> |r[i].includes| > 0
  {
    match d
    case Security => SecurityPackages
    case Solar => SolarPackages
    case Networking => NetworkingPackages
    case Digital => DigitalPackages
  }

  /** `packages.find(p => p.id === id)`: the first package with that id, if any. */
  function Find(ps: seq<Package>, id: string): (r: Option<Package>)
    ensures r.Some? ==> r.value in ps && r.value.id == id
    ensures r.None? <==> forall i :: 0 <= i < |ps| ==> ps[i].id != id
  {
    if ps == [] then None
    else if ps[0].id == id then Some(ps[0])
    else Find(ps[1..], id)
  }

  /** Looking up the id of a table entry gives back that entry, because ids in a table
      are distinct. */
  lemma {:induction false} FindDistinct(ps: seq<Package>, i: nat)
    requires i < |ps|
    requires forall j, k :: 0 <= j < k < |ps| ==> ps[j].id != ps[k].id
    ensures Find(ps, ps[i].id) == Some(ps[i])
  {
    if i > 0 {
      assert ps[0].id != ps[i].id;
      FindDistinct(ps[1..], i - 1);
    }
  }

  /** Each package button of the current department selects exactly the package shown. */
  lemma FindCurrentPackage(d: Department, i: nat)
    requires i < 4
    ensures Find(Packages(d), Packages(d)[i].id) == Some(Packages(d)[i])
  {
    FindDistinct(Packages(d), i);
  }

  /** The ids offered as package buttons for a department. */
  function PackageIds(d: Department): (r: seq<string>)
    ensures |r| == 4
    ensures forall i :: 0 <= i < 4 ==> r[i] == Packages(d)[i].id
  {
    var ps := Packages(d);
    [ps[0].id, ps[1].id, ps[2].id, ps[3].id]
  }

  /** An id is offered for a department exactly when looking it up there succeeds. */
  lemma OfferedIffFound(d: Department, id: string)
    ensures id in PackageIds(d) <==> Find(Packages(d), id).Some?
  {
    if id in PackageIds(d) {
      var i :| 0 <= i < 4 && PackageIds(d)[i] == id;
      FindCurrentPackage(d, i);
    }
  }
}
