/** The Blueprint configurator (my-app/src/components/sections/Blueprint.tsx): the visitor
    picks a department, a space, a size, a package and department-specific preferences; the
    component recommends a camera system for security, decides when the form is complete,
    and composes the enquiry that is sent over WhatsApp or e-mail. */
module Blueprint {
  import opened Wrappers
  import opened Text
  import opened UriComponent
  import opened SiteConstants
  import opened BlueprintPackages

  // The values the option buttons write into the state.
  const BusinessTypes: seq<string> := ["Retail", "Medical/Clinic", "Service", "School/Education", "Manufacturing", "Other"]
  const MainGoals: seq<string> := ["visibility", "manage", "automation"]
  const SpaceTypes: seq<string> := ["Home", "Shop", "Office", "School", "Warehouse", "Other"]
  const Sizes: seq<string> := ["Small", "Medium", "Large"]
  const BudgetFocuses: seq<string> := ["budget", "balanced", "premium"]
  const CablingPreferences: seq<string> := ["wired", "wireless"]
  const BackupNeeds: seq<string> := ["3-5hours", "6-8hours", "daytime"]
  const CoverageNeeds: seq<string> := ["basic", "strong", "multifloor"]

  /** Not chosen yet (""), or one of the button values. */
  predicate Chosen(v: string, options: seq<string>)
  {
    v == "" || v in options
  }

  /** A snapshot of the configurator's state; "" stands for "not chosen". */
  datatype Selection = Selection(
    department: Department,
    spaceType: string,
    size: string,
    location: string,
    selectedPackage: string,
    budgetFocus: string,
    cablingPreference: string,
    backupNeed: string,
    coverageNeed: string,
    businessType: string,
    mainGoal: string)

  const Initial: Selection := Selection(Security, "", "", "", "", "", "", "", "", "", "")

  /** The states the buttons can reach: every choice comes from its option list, the
      selected package (if any) belongs to the selected department, and the location stays
      empty because nothing in the component ever sets it. */
  predicate ValidSelection(s: Selection)
  {
    && Chosen(s.spaceType, SpaceTypes)
    && Chosen(s.size, Sizes)
    && Chosen(s.budgetFocus, BudgetFocuses)
    && Chosen(s.cablingPreference, CablingPreferences)
    && Chosen(s.backupNeed, BackupNeeds)
    && Chosen(s.coverageNeed, CoverageNeeds)
    && Chosen(s.businessType, BusinessTypes)
    && Chosen(s.mainGoal, MainGoals)
    && s.location == ""
    && (s.selectedPackage == "" || s.selectedPackage in PackageIds(s.department))
  }

  /** The package the selection names, looked up in the current department's table. */
  function SelectedPackage(s: Selection): Option<Package>
  {
    Find(Packages(s.department), s.selectedPackage)
  }

  // ---------------------------------------------------------------------------------------
  // Camera recommendation and form completeness

  const AnalogCameras: string := "Analog cameras (cost-effective, wired)"
  const IpCameras: string := "IP cameras (best quality, wired)"
  const WiFiCameras: string := "Wi-Fi cameras (no wiring needed)"

  /** `getSystemRecommendation`: only for security, and only once a package is selected. */
  function SystemRecommendation(s: Selection): (r: Option<string>)
    ensures r.Some? ==> s.department == Security && s.selectedPackage != ""
    ensures r.Some? ==> r.value in [AnalogCameras, IpCameras, WiFiCameras]
  {
    if s.department == Security && s.selectedPackage != "" then
      if s.cablingPreference == "wired" && s.budgetFocus == "budget" then Some(AnalogCameras)
      else if s.cablingPreference == "wired" && (s.budgetFocus == "balanced" || s.budgetFocus == "premium") then Some(IpCameras)
      else if s.cablingPreference == "wireless" then Some(WiFiCameras)
      else None
    else None
  }

  /** Within the reachable states, a security selection with a package gets a
      recommendation exactly when the cabling is wireless, or wired with some budget focus:
      wireless always means Wi-Fi cameras, wired means analog cameras on a budget and IP
      cameras otherwise, and no cabling choice means no recommendation. */
  lemma RecommendationInValidState(s: Selection)
    requires ValidSelection(s) && s.department == Security && s.selectedPackage != ""
    ensures SystemRecommendation(s).Some? <==>
            s.cablingPreference == "wireless" || (s.cablingPreference == "wired" && s.budgetFocus != "")
    ensures s.cablingPreference == "wireless" ==> SystemRecommendation(s) == Some(WiFiCameras)
    ensures s.cablingPreference == "wired" && s.budgetFocus != "" ==>
            SystemRecommendation(s) == (if s.budgetFocus == "budget" then Some(AnalogCameras) else Some(IpCameras))
    ensures s.cablingPreference == "" ==> SystemRecommendation(s) == None
  {
    assert s.budgetFocus != "" ==> s.budgetFocus in BudgetFocuses;
  }

  /** `isFormComplete`: digital needs a business type, a goal and a package; the physical
      departments need a space, a size and a package. */
  predicate IsFormComplete(s: Selection)
  {
    if s.department == Digital then s.businessType != "" && s.mainGoal != "" && s.selectedPackage != ""
    else s.spaceType != "" && s.size != "" && s.selectedPackage != ""
  }

  // ---------------------------------------------------------------------------------------
  // The enquiry message

  /** One appended piece of the enquiry message. */
  datatype Line =
    | HeadingLine(department: Department)
    | PackageLine(name: string)
    | SpaceLine(spaceType: string, size: string)
    | LocationLine(location: string)
    | IncludedHeadingLine
    | IncludedLine(item: string)
    | BudgetFocusLine(budgetFocus: string)
    | CablingLine(cabling: string)
    | RecommendedLine(recommendation: string)
    | BackupNeedLine(backupNeed: string)
    | CoverageNeedLine(coverageNeed: string)
    | BusinessTypeLine(businessType: string)
    | MainGoalLine(mainGoal: string)
    | ClosingLine

  /** `department.toUpperCase()`, written out; UpperIdIsUpperCase shows it is the
      department id upper-cased. */
  function UpperId(d: Department): string
  {
    match d
    case Security => "SECURITY"
    case Solar => "SOLAR"
    case Networking => "NETWORKING"
    case Digital => "DIGITAL"
  }

  lemma UpperIdIsUpperCase(d: Department)
    ensures UpperId(d) == ToUpperAscii(DepartmentId(d))
  {
    UpperOfLower(DepartmentId(d), UpperId(d));
  }

  /** The text each piece adds; every piece but the closing one ends its line. */
  function Render(l: Line): (r: string)
    ensures |r| > 0
    ensures l != ClosingLine ==> r[|r| - 1] == '\n'
  {
    match l
    case HeadingLine(d) => "*" + UpperId(d) + " SYSTEM INQUIRY*\n\n"
    case PackageLine(name) => "*Package:* " + name + "\n"
    case SpaceLine(spaceType, size) => "*Space:* " + spaceType + " - " + size + "\n"
    case LocationLine(location) => "*Location:* " + location + "\n"
    case IncludedHeadingLine => "\n*What's Included:*\n"
    case IncludedLine(item) => "\U{2713} " + item + "\n"
    case BudgetFocusLine(b) => "\n*Budget Focus:* " + b + "\n"
    case CablingLine(c) => "*Cabling:* " + c + "\n"
    case RecommendedLine(r) => "*Recommended:* " + r + "\n"
    case BackupNeedLine(b) => "\n*Backup Need:* " + b + "\n"
    case CoverageNeedLine(c) => "\n*Coverage Need:* " + c + "\n"
    case BusinessTypeLine(t) => "\n*Business Type:* " + t + "\n"
    case MainGoalLine(g) => "*Main Goal:* " + g + "\n"
    case ClosingLine => "\n_Please confirm site survey / next steps._"
  }

  /** The department whose preferences a line reports, if it reports one. */
  function Owner(l: Line): Option<Department>
  {
    match l
    case BudgetFocusLine(_) => Some(Security)
    case CablingLine(_) => Some(Security)
    case RecommendedLine(_) => Some(Security)
    case BackupNeedLine(_) => Some(Solar)
    case CoverageNeedLine(_) => Some(Networking)
    case BusinessTypeLine(_) => Some(Digital)
    case MainGoalLine(_) => Some(Digital)
    case _ => None
  }

  function RenderAll(ls: seq<Line>): string
  {
    if ls == [] then [] else Render(ls[0]) + RenderAll(ls[1..])
  }

  lemma {:induction false} RenderAllAppend(a: seq<Line>, b: seq<Line>)
    ensures RenderAll(a + b) == RenderAll(a) + RenderAll(b)
  {
    if a == [] {
      assert a + b == b;
    } else {
      assert (a + b)[1..] == a[1..] + b;
      RenderAllAppend(a[1..], b);
    }
  }

  lemma RenderAllSnoc(ls: seq<Line>, l: Line)
    ensures RenderAll(ls + [l]) == RenderAll(ls) + Render(l)
  {
    RenderAllAppend(ls, [l]);
    assert RenderAll([l]) == Render(l) + RenderAll([]);
  }

  /** `value || "Not specified"`. */
  function OrNotSpecified(v: string): string
  {
    if v == "" then "Not specified" else v
  }

  /** One line per included item, in the table's order. */
  function IncludedLines(items: seq<string>): (r: seq<Line>)
    ensures |r| == |items|
    ensures forall i :: 0 <= i < |items| ==> r[i] == IncludedLine(items[i])
  {
    if items == [] then [] else IncludedLines(items[..|items| - 1]) + [IncludedLine(items[|items| - 1])]
  }

  /** The line l when c holds, nothing otherwise: `if (c) message += ...`. */
  function When(c: bool, l: Line): seq<Line>
  {
    if c then [l] else []
  }

  lemma RenderAllWhen(ls: seq<Line>, c: bool, l: Line)
    ensures RenderAll(ls + When(c, l)) == RenderAll(ls) + (if c then Render(l) else "")
  {
    if c {
      RenderAllSnoc(ls, l);
    } else {
      assert ls + When(c, l) == ls;
    }
  }

  /** The lines before the included items. */
  function HeadLines(s: Selection, pkg: Package): seq<Line>
  {
    [HeadingLine(s.department)] + [PackageLine(pkg.name)]
    + When(s.department != Digital, SpaceLine(OrNotSpecified(s.spaceType), OrNotSpecified(s.size)))
    + When(s.location != "", LocationLine(s.location))
    + [IncludedHeadingLine]
  }

  /** The security preference lines, the recommendation last. */
  function SecurityLines(s: Selection): seq<Line>
  {
    When(s.budgetFocus != "", BudgetFocusLine(s.budgetFocus))
    + When(s.cablingPreference != "", CablingLine(s.cablingPreference))
    + (match SystemRecommendation(s) case Some(r) => [RecommendedLine(r)] case None => [])
  }

  /** The preference lines of the selected department. */
  function DepartmentLines(s: Selection): seq<Line>
  {
    match s.department
    case Security => SecurityLines(s)
    case Solar => When(s.backupNeed != "", BackupNeedLine(s.backupNeed))
    case Networking => When(s.coverageNeed != "", CoverageNeedLine(s.coverageNeed))
    case Digital =>
      When(s.businessType != "", BusinessTypeLine(s.businessType))
      + When(s.mainGoal != "", MainGoalLine(s.mainGoal))
  }

  /** All lines of the enquiry for a found package, in the order they are appended. */
  function Lines(s: Selection, pkg: Package): seq<Line>
  {
    HeadLines(s, pkg) + IncludedLines(pkg.includes) + DepartmentLines(s) + [ClosingLine]
  }

  /** The enquiry text for a found package. */
  function MessageFor(s: Selection, pkg: Package): string
  {
    RenderAll(Lines(s, pkg))
  }

  /** The enquiry text before encoding: empty when the selected package is not found. */
  function InquiryText(s: Selection): string
  {
    match SelectedPackage(s)
    case None => ""
    case Some(pkg) => MessageFor(s, pkg)
  }

  /** The message is empty exactly when no package of the current department is selected. */
  lemma InquiryEmptyIffNoPackage(s: Selection)
    ensures InquiryText(s) == "" <==> SelectedPackage(s).None?
  {
    if SelectedPackage(s).Some? {
      MessageNotEmpty(s, SelectedPackage(s).value);
    }
  }

  lemma MessageNotEmpty(s: Selection, pkg: Package)
    ensures MessageFor(s, pkg) != ""
  {
    var ls := Lines(s, pkg);
    assert |ls| > 0;
    assert |RenderAll(ls)| >= |Render(ls[0])| > 0;
  }

  lemma LinesStart(s: Selection, pkg: Package)
    ensures var ls := Lines(s, pkg);
            |ls| >= 2 && ls[0] == HeadingLine(s.department) && ls[1] == PackageLine(pkg.name)
  {
    HeadLinesShape(s, pkg);
    Locate(HeadLines(s, pkg), IncludedLines(pkg.includes), DepartmentLines(s), [ClosingLine], 0);
    Locate(HeadLines(s, pkg), IncludedLines(pkg.includes), DepartmentLines(s), [ClosingLine], 1);
  }

  /** The message opens with the upper-cased department heading and the package name. */
  lemma InquiryStarts(s: Selection, pkg: Package)
    ensures var t := MessageFor(s, pkg);
            var head := "*" + UpperId(s.department) + " SYSTEM INQUIRY*\n\n" + ("*Package:* " + pkg.name + "\n");
            |t| >= |head| && t[..|head|] == head
  {
    var ls := Lines(s, pkg);
    LinesStart(s, pkg);
    var first := [HeadingLine(s.department)] + [PackageLine(pkg.name)];
    assert ls[..2] == first;
    assert ls == first + ls[2..];
    RenderAllAppend(first, ls[2..]);
    RenderAllSnoc([HeadingLine(s.department)], PackageLine(pkg.name));
    assert RenderAll([HeadingLine(s.department)]) == Render(HeadingLine(s.department)) + RenderAll([]);
  }

  /** The message closes with the request for a site survey. */
  lemma InquiryEnds(s: Selection, pkg: Package)
    ensures var t := MessageFor(s, pkg);
            var tail := "\n_Please confirm site survey / next steps._";
            |t| >= |tail| && t[|t| - |tail|..] == tail
  {
    var body := HeadLines(s, pkg) + IncludedLines(pkg.includes) + DepartmentLines(s);
    RenderAllSnoc(body, ClosingLine);
    var t := MessageFor(s, pkg);
    assert t == RenderAll(body) + Render(ClosingLine);
  }

  /** Where position j of a + b + c + d falls. */
  lemma Locate(a: seq<Line>, b: seq<Line>, c: seq<Line>, d: seq<Line>, j: nat)
    requires j < |a| + |b| + |c| + |d|
    ensures var ls := a + b + c + d;
            && (j < |a| ==> ls[j] == a[j])
            && (|a| <= j < |a| + |b| ==> ls[j] == b[j - |a|])
            && (|a| + |b| <= j < |a| + |b| + |c| ==> ls[j] == c[j - |a| - |b|])
            && (|a| + |b| + |c| <= j ==> ls[j] == d[j - |a| - |b| - |c|])
  {
  }

  /** The lines before the items: heading, package, the space line exactly when the
      department is not digital, the location when set, and the "What's Included" heading;
      none of them is an item or a preference. */
  lemma HeadLinesShape(s: Selection, pkg: Package)
    ensures var h := HeadLines(s, pkg);
            && 3 <= |h|
            && h[0] == HeadingLine(s.department) && h[1] == PackageLine(pkg.name)
            && h[|h| - 1] == IncludedHeadingLine
            && (forall l :: l in h ==> Owner(l).None? && !l.IncludedLine?)
            && (forall l :: l in h && l.SpaceLine? ==>
                  s.department != Digital && l == SpaceLine(OrNotSpecified(s.spaceType), OrNotSpecified(s.size)))
            && (s.department != Digital ==> h[2] == SpaceLine(OrNotSpecified(s.spaceType), OrNotSpecified(s.size)))
  {
  }

  lemma IncludedLinesAreItems(items: seq<string>)
    ensures forall l :: l in IncludedLines(items) ==> l.IncludedLine?
  {
    var r := IncludedLines(items);
    forall l | l in r
      ensures l.IncludedLine?
    {
      var i :| 0 <= i < |r| && r[i] == l;
    }
  }

  /** The department block only reports the selected department's preferences. */
  lemma DepartmentLinesOwned(s: Selection)
    ensures forall l :: l in DepartmentLines(s) ==> Owner(l) == Some(s.department)
  {
  }

  /** The security block holds the budget focus and the cabling, each when chosen and with
      the chosen value, and the recommendation exactly when there is one. */
  lemma SecurityLinesContent(s: Selection)
    ensures var dl := DepartmentLines(s);
            && (forall b :: BudgetFocusLine(b) in dl <==> s.department == Security && b == s.budgetFocus && b != "")
            && (forall c :: CablingLine(c) in dl <==> s.department == Security && c == s.cablingPreference && c != "")
            && (forall r :: RecommendedLine(r) in dl <==> SystemRecommendation(s) == Some(r))
  {
    if s.department != Security {
      DepartmentLinesOwned(s);
    }
  }

  /** The solar, networking and digital blocks hold their department's preferences, each
      when chosen and with the chosen value. */
  lemma OtherLinesContent(s: Selection)
    ensures var dl := DepartmentLines(s);
            && (forall b :: BackupNeedLine(b) in dl <==> s.department == Solar && b == s.backupNeed && b != "")
            && (forall c :: CoverageNeedLine(c) in dl <==> s.department == Networking && c == s.coverageNeed && c != "")
            && (forall t :: BusinessTypeLine(t) in dl <==> s.department == Digital && t == s.businessType && t != "")
            && (forall g :: MainGoalLine(g) in dl <==> s.department == Digital && g == s.mainGoal && g != "")
  {
    DepartmentLinesOwned(s);
  }

  /** A preference line is in the message exactly when it is in the department block. */
  lemma PreferenceLinesInBlock(s: Selection, pkg: Package)
    ensures forall l :: Owner(l).Some? ==> (l in Lines(s, pkg) <==> l in DepartmentLines(s))
    ensures forall l :: l in Lines(s, pkg) && Owner(l).Some? ==> Owner(l) == Some(s.department)
  {
    DepartmentLinesOwned(s);
    HeadLinesShape(s, pkg);
    IncludedLinesAreItems(pkg.includes);
  }

  /** The included items appear right after the "What's Included" heading, each once and in
      the table's order. */
  lemma IncludesInOrder(s: Selection, pkg: Package)
    ensures var ls := Lines(s, pkg);
            var k := |HeadLines(s, pkg)|;
            && ls[k - 1] == IncludedHeadingLine
            && (forall i :: 0 <= i < |pkg.includes| ==> ls[k + i] == IncludedLine(pkg.includes[i]))
  {
    var h, inc, dl := HeadLines(s, pkg), IncludedLines(pkg.includes), DepartmentLines(s);
    var k := |h|;
    HeadLinesShape(s, pkg);
    Locate(h, inc, dl, [ClosingLine], k - 1);
    forall i | 0 <= i < |pkg.includes|
      ensures Lines(s, pkg)[k + i] == IncludedLine(pkg.includes[i])
    {
      Locate(h, inc, dl, [ClosingLine], k + i);
    }
  }

  /** No other line of the message is an item line. */
  lemma IncludesNowhereElse(s: Selection, pkg: Package)
    ensures var ls := Lines(s, pkg);
            var k := |HeadLines(s, pkg)|;
            forall j :: 0 <= j < |ls| && ls[j].IncludedLine? ==> k <= j < k + |pkg.includes|
  {
    var h, inc, dl := HeadLines(s, pkg), IncludedLines(pkg.includes), DepartmentLines(s);
    var ls := Lines(s, pkg);
    var k := |h|;
    HeadLinesShape(s, pkg);
    DepartmentLinesOwned(s);
    forall j | 0 <= j < |ls| && ls[j].IncludedLine?
      ensures k <= j < k + |pkg.includes|
    {
      Locate(h, inc, dl, [ClosingLine], j);
    }
  }

  /** The space line appears exactly when the department is not digital, and it shows the
      space and size with "Not specified" standing in for an empty one. */
  lemma SpaceLineIffNotDigital(s: Selection, pkg: Package)
    ensures (exists l :: l in Lines(s, pkg) && l.SpaceLine?) <==> s.department != Digital
    ensures forall l :: l in Lines(s, pkg) && l.SpaceLine? ==>
              l == SpaceLine(OrNotSpecified(s.spaceType), OrNotSpecified(s.size))
  {
    HeadLinesShape(s, pkg);
    IncludedLinesAreItems(pkg.includes);
    DepartmentLinesOwned(s);
    var h := HeadLines(s, pkg);
    if s.department != Digital {
      assert h[2] in h;
    }
  }

  /** Digital enquiries do not depend on the space or size chosen, and neither does whether a
      digital form is complete. */
  lemma DigitalIgnoresSpace(s: Selection, spaceType: string, size: string)
    requires s.department == Digital
    ensures InquiryText(s.(spaceType := spaceType, size := size)) == InquiryText(s)
    ensures IsFormComplete(s.(spaceType := spaceType, size := size)) == IsFormComplete(s)
  {
    var s' := s.(spaceType := spaceType, size := size);
    if SelectedPackage(s).Some? {
      assert Lines(s', SelectedPackage(s).value) == Lines(s, SelectedPackage(s).value);
    }
  }

  // ---------------------------------------------------------------------------------------
  // Links

  /** `encodeURIComponent` of the e-mail subject; with no package found, the template
      literal prints "undefined" for the missing name. */
  function EmailSubject(s: Selection): string
  {
    UpperId(s.department) + " System Inquiry - "
    + (match SelectedPackage(s) case Some(pkg) => pkg.name case None => "undefined")
  }

  /** `handleEmail`: the encoded message with every encoded line feed "%0A" widened to
      "%0D%0A"; that is the encoding of the message with CR LF line ends. */
  function EmailLink(s: Selection): (r: string)
    ensures r == "mailto:" + Email + "?subject=" + EncodeURIComponent(EmailSubject(s))
                 + "&body=" + EncodeURIComponent(CrLf(InquiryText(s)))
  {
    CrLfEscapes(InquiryText(s));
    "mailto:" + Email + "?subject=" + EncodeURIComponent(EmailSubject(s))
    + "&body=" + ReplaceAll(EncodeURIComponent(InquiryText(s)), "%0A", "%0D%0A")
  }

  /** Reading the link's body parameter back gives the message with CR LF line ends. */
  lemma EmailBodyDecodes(s: Selection)
    ensures var r := EmailLink(s);
            var prefix := "mailto:" + Email + "?subject=" + EncodeURIComponent(EmailSubject(s)) + "&body=";
            r[..|prefix|] == prefix && DecodeURIComponent(r[|prefix|..]) == Some(CrLf(InquiryText(s)))
  {
    var prefix := "mailto:" + Email + "?subject=" + EncodeURIComponent(EmailSubject(s)) + "&body=";
    var body := EncodeURIComponent(CrLf(InquiryText(s)));
    assert EmailLink(s) == prefix + body;
    assert EmailLink(s)[|prefix|..] == body;
    DecodeEncode(CrLf(InquiryText(s)));
  }

  /** `handleWhatsApp` as written: it puts `WHATSAPP_NUMBER`, "+" included, into the
      `wa.me` path, followed by the encoded message. */
  function WhatsAppLinkAsWritten(encoded: string): string
  {
    "https://wa.me/" + WhatsAppNumber + "?text=" + encoded
  }

  /** The number part of the link as written starts with "+", which is not a digit. */
  lemma AsWrittenLinkKeepsPlus(encoded: string)
    ensures var r := WhatsAppLinkAsWritten(encoded);
            |r| > 14 && r[..14] == "https://wa.me/" && r[14] == '+' && !IsDigit(r[14])
  {
  }

  /** The link built from `WHATSAPP_URL`: "https://wa.me/", twelve digits, then the text
      parameter. */
  function WhatsAppLink(encoded: string): (r: string)
    ensures |r| == 32 + |encoded|
    ensures r[..14] == "https://wa.me/"
    ensures forall i :: 14 <= i < 26 ==> IsDigit(r[i])
    ensures r[26..] == "?text=" + encoded
  {
    WhatsAppUrlStripsNumber();
    WhatsAppUrl + "?text=" + encoded
  }

  /** The corrected link is the link as written with the "+" removed, and its text
      parameter reads back as the message. */
  lemma WhatsAppLinkCorrected(message: string)
    ensures var e := EncodeURIComponent(message);
            var r := WhatsAppLink(e);
            && WhatsAppLinkAsWritten(e) == r[..14] + "+" + r[14..]
            && DecodeURIComponent(r[32..]) == Some(message)
  {
    var e := EncodeURIComponent(message);
    var r := WhatsAppLink(e);
    WhatsAppUrlStripsNumber();
    assert WhatsAppNumber == "+" + WhatsAppNumber[1..];
    assert r == WhatsAppUrl + "?text=" + e;
    assert r[32..] == e;
    DecodeEncode(message);
  }

  /** Once the form is complete (the only time the send buttons are shown), the selected
      package is found, so the message is not empty and the subject names the package. */
  lemma CompleteFormFindsPackage(s: Selection)
    requires ValidSelection(s) && IsFormComplete(s)
    ensures SelectedPackage(s).Some?
    ensures InquiryText(s) != ""
    ensures EmailSubject(s) == UpperId(s.department) + " System Inquiry - " + SelectedPackage(s).value.name
  {
    OfferedIffFound(s.department, s.selectedPackage);
    InquiryEmptyIffNoPackage(s);
  }

  /** Switching department without clearing the package would leave an id the new
      department's table does not hold: ids never repeat across departments. */
  lemma IdsBelongToOneDepartment(d: Department, e: Department, i: nat)
    requires d != e && i < 4
    ensures Packages(d)[i].id !in PackageIds(e)
  {
  }

  // ---------------------------------------------------------------------------------------
  // Composing the message

  /** The part of `generateWhatsAppMessage` after the lookup: the message is built by
      appending, in order, the heading, the package, the space (not for digital), the
      location if any, the included items one by one, the department's preferences and
      the closing request. */
  method ComposeMessage(s: Selection, pkg: Package) returns (message: string)
    ensures message == MessageFor(s, pkg)
  {
    message := HeadText(s, pkg);
    ghost var head := HeadLines(s, pkg);
    assert head + IncludedLines(pkg.includes[..0]) == head;
    var i := 0;
    while i < |pkg.includes|
      invariant 0 <= i <= |pkg.includes|
      invariant message == RenderAll(head + IncludedLines(pkg.includes[..i]))
    {
      var item := pkg.includes[i];
      message := message + ("\U{2713} " + item + "\n");
      ghost var prev := IncludedLines(pkg.includes[..i]);
      RenderAllSnoc(head + prev, IncludedLine(item));
      assert pkg.includes[..i + 1][..i] == pkg.includes[..i];
      assert IncludedLines(pkg.includes[..i + 1]) == prev + [IncludedLine(item)];
      AppendAssoc(head, prev, [IncludedLine(item)]);
      assert message == RenderAll(head + IncludedLines(pkg.includes[..i + 1]));
      i := i + 1;
    }
    assert pkg.includes[..i] == pkg.includes;

    var preferences := PreferenceText(s);
    message := message + preferences;
    RenderAllAppend(head + IncludedLines(pkg.includes), DepartmentLines(s));

    message := message + "\n_Please confirm site survey / next steps._";
    RenderAllSnoc(head + IncludedLines(pkg.includes) + DepartmentLines(s), ClosingLine);
  }

  /** The first part of `generateWhatsAppMessage` after the lookup: heading, package,
      space unless digital, location when set, and the "What's Included" heading. */
  method HeadText(s: Selection, pkg: Package) returns (message: string)
    ensures message == RenderAll(HeadLines(s, pkg))
  {
    ghost var shown: seq<Line> := [HeadingLine(s.department)];
    message := "*" + UpperId(s.department) + " SYSTEM INQUIRY*\n\n";
    assert RenderAll(shown) == Render(HeadingLine(s.department)) + RenderAll([]);
    message := message + ("*Package:* " + pkg.name + "\n");
    RenderAllSnoc(shown, PackageLine(pkg.name));
    shown := shown + [PackageLine(pkg.name)];
    assert message == RenderAll(shown);
    var place := PlaceText(s);
    message := message + place;
    ghost var w1 := When(s.department != Digital, SpaceLine(OrNotSpecified(s.spaceType), OrNotSpecified(s.size)));
    ghost var w2 := When(s.location != "", LocationLine(s.location));
    RenderAllAppend(shown, w1 + w2);
    AppendAssoc(shown, w1, w2);
    shown := shown + w1 + w2;
    assert message == RenderAll(shown);
    message := message + "\n*What's Included:*\n";
    RenderAllSnoc(shown, IncludedHeadingLine);
    assert shown + [IncludedHeadingLine] == HeadLines(s, pkg);
  }

  /** The space (not for digital) and the location (when set). */
  method PlaceText(s: Selection) returns (text: string)
    ensures text == RenderAll(When(s.department != Digital, SpaceLine(OrNotSpecified(s.spaceType), OrNotSpecified(s.size)))
                              + When(s.location != "", LocationLine(s.location)))
  {
    ghost var space := SpaceLine(OrNotSpecified(s.spaceType), OrNotSpecified(s.size));
    text := "";
    if s.department != Digital {
      text := text + ("*Space:* " + OrNotSpecified(s.spaceType) + " - " + OrNotSpecified(s.size) + "\n");
    }
    RenderAllWhen([], s.department != Digital, space);
    assert text == RenderAll(When(s.department != Digital, space));
    if s.location != "" {
      text := text + ("*Location:* " + s.location + "\n");
    }
    RenderAllWhen(When(s.department != Digital, space), s.location != "", LocationLine(s.location));
  }

  /** The department-specific part of `generateWhatsAppMessage`: budget focus, cabling and
      the camera recommendation for security; backup need for solar; coverage need for
      networking; business type and main goal for digital; each only when chosen. */
  method PreferenceText(s: Selection) returns (text: string)
    ensures text == RenderAll(DepartmentLines(s))
  {
    text := "";
    if s.department == Security {
      text := SecurityText(s);
    }
    if s.department == Solar && s.backupNeed != "" {
      text := text + ("\n*Backup Need:* " + s.backupNeed + "\n");
    }
    RenderAllWhen([], s.department == Solar && s.backupNeed != "", BackupNeedLine(s.backupNeed));
    if s.department == Networking && s.coverageNeed != "" {
      text := text + ("\n*Coverage Need:* " + s.coverageNeed + "\n");
    }
    RenderAllWhen([], s.department == Networking && s.coverageNeed != "", CoverageNeedLine(s.coverageNeed));
    if s.department == Digital {
      text := DigitalText(s);
    }
  }

  /** The digital block of `generateWhatsAppMessage`. */
  method DigitalText(s: Selection) returns (text: string)
    ensures text == RenderAll(When(s.businessType != "", BusinessTypeLine(s.businessType))
                              + When(s.mainGoal != "", MainGoalLine(s.mainGoal)))
  {
    text := "";
    if s.businessType != "" {
      text := text + ("\n*Business Type:* " + s.businessType + "\n");
    }
    RenderAllWhen([], s.businessType != "", BusinessTypeLine(s.businessType));
    if s.mainGoal != "" {
      text := text + ("*Main Goal:* " + s.mainGoal + "\n");
    }
    RenderAllWhen(When(s.businessType != "", BusinessTypeLine(s.businessType)), s.mainGoal != "", MainGoalLine(s.mainGoal));
  }

  /** The security block of `generateWhatsAppMessage`. */
  method SecurityText(s: Selection) returns (text: string)
    ensures text == RenderAll(SecurityLines(s))
  {
    text := "";
    if s.budgetFocus != "" {
      text := text + ("\n*Budget Focus:* " + s.budgetFocus + "\n");
    }
    RenderAllWhen([], s.budgetFocus != "", BudgetFocusLine(s.budgetFocus));
    ghost var shown := When(s.budgetFocus != "", BudgetFocusLine(s.budgetFocus));
    assert text == RenderAll(shown);
    if s.cablingPreference != "" {
      text := text + ("*Cabling:* " + s.cablingPreference + "\n");
    }
    RenderAllWhen(shown, s.cablingPreference != "", CablingLine(s.cablingPreference));
    shown := shown + When(s.cablingPreference != "", CablingLine(s.cablingPreference));
    assert text == RenderAll(shown);
    var recommendation := SystemRecommendation(s);
    if recommendation.Some? {
      text := text + ("*Recommended:* " + recommendation.value + "\n");
      RenderAllSnoc(shown, RecommendedLine(recommendation.value));
    } else {
      assert shown + [] == shown;
    }
  }

  // ---------------------------------------------------------------------------------------
  // The component's state

  class Configurator {
    var department: Department
    var spaceType: string
    var size: string
    var location: string
    var selectedPackage: string
    var budgetFocus: string
    var cablingPreference: string
    var backupNeed: string
    var coverageNeed: string
    var businessType: string
    var mainGoal: string

    function Current(): Selection
      reads this
    {
      Selection(department, spaceType, size, location, selectedPackage, budgetFocus,
                cablingPreference, backupNeed, coverageNeed, businessType, mainGoal)
    }

    predicate Valid()
      reads this
    {
      ValidSelection(Current())
    }

    /** The initial state: security, nothing chosen. */
    constructor ()
      ensures Current() == Initial
      ensures Valid()
    {
      department := Security;
      spaceType, size, location, selectedPackage := "", "", "", "";
      budgetFocus, cablingPreference, backupNeed, coverageNeed := "", "", "", "";
      businessType, mainGoal := "", "";
    }

    /** A department tab: switch department and drop the selected package; every other
        choice is kept. */
    method SelectDepartment(d: Department)
      requires Valid()
      modifies this
      ensures Current() == old(Current()).(department := d, selectedPackage := "")
      ensures Valid()
    {
      department := d;
      selectedPackage := "";
    }

    /** A package card of the current department. */
    method SelectPackage(id: string)
      requires Valid() && id in PackageIds(department)
      modifies this
      ensures Current() == old(Current()).(selectedPackage := id)
      ensures Valid()
      ensures SelectedPackage(Current()).Some? && SelectedPackage(Current()).value.id == id
    {
      selectedPackage := id;
      OfferedIffFound(department, id);
    }

    method ChooseSpaceType(t: string)
      requires Valid() && t in SpaceTypes
      modifies this
      ensures Current() == old(Current()).(spaceType := t)
      ensures Valid()
    {
      spaceType := t;
    }

    method ChooseSize(z: string)
      requires Valid() && z in Sizes
      modifies this
      ensures Current() == old(Current()).(size := z)
      ensures Valid()
    {
      size := z;
    }

    method ChooseBudgetFocus(b: string)
      requires Valid() && b in BudgetFocuses
      modifies this
      ensures Current() == old(Current()).(budgetFocus := b)
      ensures Valid()
    {
      budgetFocus := b;
    }

    method ChooseCabling(c: string)
      requires Valid() && c in CablingPreferences
      modifies this
      ensures Current() == old(Current()).(cablingPreference := c)
      ensures Valid()
    {
      cablingPreference := c;
    }

    method ChooseBackupNeed(b: string)
      requires Valid() && b in BackupNeeds
      modifies this
      ensures Current() == old(Current()).(backupNeed := b)
      ensures Valid()
    {
      backupNeed := b;
    }

    method ChooseCoverageNeed(c: string)
      requires Valid() && c in CoverageNeeds
      modifies this
      ensures Current() == old(Current()).(coverageNeed := c)
      ensures Valid()
    {
      coverageNeed := c;
    }

    method ChooseBusinessType(t: string)
      requires Valid() && t in BusinessTypes
      modifies this
      ensures Current() == old(Current()).(businessType := t)
      ensures Valid()
    {
      businessType := t;
    }

    method ChooseMainGoal(g: string)
      requires Valid() && g in MainGoals
      modifies this
      ensures Current() == old(Current()).(mainGoal := g)
      ensures Valid()
    {
      mainGoal := g;
    }

    /** `generateWhatsAppMessage`: looks the selected package up in the current
        department's table, returns "" when it is not there, and otherwise composes the
        enquiry and returns it URI-encoded. The result decodes back to the enquiry. */
    method GenerateWhatsAppMessage() returns (encoded: string)
      ensures encoded == EncodeURIComponent(InquiryText(Current()))
      ensures DecodeURIComponent(encoded) == Some(InquiryText(Current()))
    {
      var found := Find(Packages(department), selectedPackage);
      if found.None? {
        DecodeEncode("");
        return "";
      }
      var message := ComposeMessage(Current(), found.value);
      encoded := EncodeURIComponent(message);
      DecodeEncode(message);
    }

  }
}
