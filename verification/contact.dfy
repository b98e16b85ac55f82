/** The site-survey request of my-app/src/components/sections/Contact.tsx: the form state
    (space type, location, preferred time, note), the message `generateMessage` builds from
    it, and the WhatsApp and e-mail links that carry the message. */
module Contact {
  import opened Wrappers
  import opened Text
  import opened UriComponent
  import opened SiteConstants

  /** The space-type buttons. */
  const SpaceTypes: seq<string> := ["Home", "Shop", "Office", "Warehouse"]

  /** The preferred-time buttons. */
  const PreferredTimes: seq<string> := ["Morning", "Afternoon", "Evening"]

  const Greeting: string := "Hi! I'd like to request a site survey."

  const Closing: string := "\nPlease suggest a recommended setup and survey time."

  /** The fixed subject of the e-mail. */
  const Subject: string := "Site Survey Request - Upedge Technologies"

  /** The form: a space and a time are `null` until a button is pressed. */
  datatype Survey = Survey(selectedSpace: Option<string>, location: string, selectedTime: Option<string>, note: string)

  const Blank: Survey := Survey(None, "", None, "")

  /** JavaScript truthiness of a `string | null`: neither null nor empty. */
  predicate IsSet(o: Option<string>)
  {
    o.Some? && o.value != ""
  }

  // ---------------------------------------------------------------------------------------
  // The message

  /** One entry of the `parts` array. */
  datatype Part =
    | GreetingPart
    | SpacePart(space: string)
    | LocationPart(location: string)
    | TimePart(time: string)
    | NotePart(note: string)
    | ClosingPart

  /** The text pushed for each part. The labels keep the characters the component's file
      holds in front of them (the bytes of an emoji read as Windows-1252). */
  function Render(p: Part): (r: string)
    ensures |r| > 0
  {
    match p
    case GreetingPart => Greeting
    case SpacePart(t) => "\n\U{f0}\U{178}\U{201c} Space Type: " + t
    case LocationPart(l) => "\U{f0}\U{178}\U{201c}\U{152} Location: " + l
    case TimePart(t) => "\U{e2}\U{b0} Preferred Time: " + t
    case NotePart(n) => "\U{f0}\U{178}\U{201c} Note: " + n
    case ClosingPart => Closing
  }

  /** Position of a part in the fixed order greeting, space, location, time, note, closing. */
  function Rank(p: Part): nat
  {
    match p
    case GreetingPart => 0
    case SpacePart(_) => 1
    case LocationPart(_) => 2
    case TimePart(_) => 3
    case NotePart(_) => 4
    case ClosingPart => 5
  }

  /** The part p when c holds, nothing otherwise: `if (c) parts.push(...)`. */
  function When(c: bool, p: Part): seq<Part>
  {
    if c then [p] else []
  }

  /** The parts of the message for the form f, in the order they are pushed. */
  function Parts(f: Survey): seq<Part>
  {
    [GreetingPart] + SpaceAndLocation(f) + TimeAndNote(f) + [ClosingPart]
  }

  /** The space line when a space is chosen, then the location line when one is typed. */
  function SpaceAndLocation(f: Survey): seq<Part>
  {
    When(IsSet(f.selectedSpace), SpacePart(if f.selectedSpace.Some? then f.selectedSpace.value else ""))
    + When(f.location != "", LocationPart(f.location))
  }

  /** The time line when a time is chosen, then the note line when one is typed. */
  function TimeAndNote(f: Survey): seq<Part>
  {
    When(IsSet(f.selectedTime), TimePart(if f.selectedTime.Some? then f.selectedTime.value else ""))
    + When(f.note != "", NotePart(f.note))
  }

  /** The text of each part. */
  function Texts(ps: seq<Part>): (r: seq<string>)
  {
    MapSeq(Render, ps)
  }

  /** `generateMessage()`: the parts joined with line feeds. */
  function Message(f: Survey): string
  {
    Join(Texts(Parts(f)), "\n")
  }

  lemma TextsWhen(ps: seq<Part>, c: bool, p: Part)
    ensures Texts(ps + When(c, p)) == Texts(ps) + (if c then [Render(p)] else [])
  {
    if c {
      MapSeqSnoc(Render, ps, p);
    } else {
      assert ps + When(c, p) == ps;
    }
  }

  /** Parts strictly ordered by rank: each kind at most once, in the fixed order. */
  ghost predicate Ranked(ps: seq<Part>)
  {
    forall i, j :: 0 <= i < j < |ps| ==> Rank(ps[i]) < Rank(ps[j])
  }

  /** Every part of ps has a rank between lo and hi. */
  ghost predicate Within(ps: seq<Part>, lo: nat, hi: nat)
  {
    forall q :: q in ps ==> lo <= Rank(q) <= hi
  }

  lemma RankedAppend(a: seq<Part>, b: seq<Part>, lo: nat, mid: nat, hi: nat)
    requires lo <= mid < hi
    requires Ranked(a) && Within(a, lo, mid)
    requires Ranked(b) && Within(b, mid + 1, hi)
    ensures Ranked(a + b) && Within(a + b, lo, hi)
  {
    var ab := a + b;
    forall i, j | 0 <= i < j < |ab|
      ensures Rank(ab[i]) < Rank(ab[j])
    {
      if i < |a| <= j {
        assert ab[i] in a && ab[j] in b;
      }
    }
    forall q | q in ab
      ensures lo <= Rank(q) <= hi
    {
      var k :| 0 <= k < |ab| && ab[k] == q;
      if k < |a| {
        assert a[k] in a;
      } else {
        assert b[k - |a|] in b;
      }
    }
  }

  /** Two optional parts of increasing rank. */
  lemma WhenPairRanked(c: bool, p: Part, d: bool, q: Part)
    requires Rank(p) < Rank(q)
    ensures Ranked(When(c, p) + When(d, q)) && Within(When(c, p) + When(d, q), Rank(p), Rank(q))
  {
  }

  /** The optional parts come after the greeting, in rank order. */
  lemma OpeningRanked(f: Survey)
    ensures var ps := [GreetingPart] + SpaceAndLocation(f) + TimeAndNote(f);
            Ranked(ps) && Within(ps, 0, 4)
  {
    var sl, tn := SpaceAndLocation(f), TimeAndNote(f);
    WhenPairRanked(IsSet(f.selectedSpace), SpacePart(if f.selectedSpace.Some? then f.selectedSpace.value else ""),
                   f.location != "", LocationPart(f.location));
    RankedAppend([GreetingPart], sl, 0, 0, 2);
    WhenPairRanked(IsSet(f.selectedTime), TimePart(if f.selectedTime.Some? then f.selectedTime.value else ""),
                   f.note != "", NotePart(f.note));
    RankedAppend([GreetingPart] + sl, tn, 0, 2, 4);
  }

  /** The parts come in the fixed order greeting, space, location, time, note, closing, each
      kind at most once. */
  lemma PartsInOrder(f: Survey)
    ensures Ranked(Parts(f))
  {
    OpeningRanked(f);
    RankedAppend([GreetingPart] + SpaceAndLocation(f) + TimeAndNote(f), [ClosingPart], 0, 4, 5);
  }

  /** The greeting is the first part and the closing the last. */
  lemma GreetingFirstClosingLast(f: Survey)
    ensures |Parts(f)| >= 2 && Parts(f)[0] == GreetingPart && Parts(f)[|Parts(f)| - 1] == ClosingPart
  {
  }

  /** Each optional line is in the message exactly when its field is set, and shows the
      field's value; the greeting and the closing are always there. */
  lemma PartsPresentIffSet(f: Survey)
    ensures forall t :: SpacePart(t) in Parts(f) <==> f.selectedSpace == Some(t) && t != ""
    ensures forall l :: LocationPart(l) in Parts(f) <==> l == f.location && l != ""
    ensures forall t :: TimePart(t) in Parts(f) <==> f.selectedTime == Some(t) && t != ""
    ensures forall n :: NotePart(n) in Parts(f) <==> n == f.note && n != ""
    ensures GreetingPart in Parts(f) && ClosingPart in Parts(f)
  {
  }

  /** The message opens with the greeting and a line feed. */
  lemma MessageStartsWithGreeting(f: Survey)
    ensures |Message(f)| > |Greeting| && Message(f)[..|Greeting| + 1] == Greeting + "\n"
  {
    GreetingFirstClosingLast(f);
    MapSeqAt(Render, Parts(f));
    var ts := Texts(Parts(f));
    assert Join(ts, "\n") == ts[0] + "\n" + Join(ts[1..], "\n");
  }

  /** The message ends with a line feed and the closing request. */
  lemma MessageEndsWithClosing(f: Survey)
    ensures var m := Message(f);
            |m| > |Closing| && m[|m| - |Closing| - 1..] == "\n" + Closing
  {
    var x := MessageBeforeClosing(f);
    EndsWith(x, "\n" + Closing);
  }

  /** The message is the joined parts before the closing, a line feed, and the closing. */
  lemma MessageBeforeClosing(f: Survey) returns (x: string)
    ensures Message(f) == x + ("\n" + Closing)
  {
    var init := [GreetingPart] + SpaceAndLocation(f) + TimeAndNote(f);
    assert Parts(f) == init + [ClosingPart];
    MapSeqSnoc(Render, init, ClosingPart);
    assert Texts(Parts(f)) == Texts(init) + [Closing];
    JoinSnoc(Texts(init), Closing, "\n");
    x := Join(Texts(init), "\n");
    AppendAssoc(x, "\n", Closing);
  }

  /** With nothing filled in, the message is the greeting, a line feed and the closing. */
  lemma BlankMessage(f: Survey)
    requires !IsSet(f.selectedSpace) && f.location == "" && !IsSet(f.selectedTime) && f.note == ""
    ensures Message(f) == Greeting + "\n" + Closing
  {
    assert Parts(f) == [GreetingPart, ClosingPart];
    MapSeqAt(Render, [GreetingPart, ClosingPart]);
    var ts := Texts([GreetingPart, ClosingPart]);
    assert ts == [Greeting, Closing];
    assert ts[1..] == [Closing];
    assert Join(ts, "\n") == Greeting + "\n" + Join([Closing], "\n");
  }

  /** `generateMessage`: push the greeting, each optional line whose field is set, and the
      closing, then join them with line feeds. */
  method ComposeMessage(f: Survey) returns (message: string)
    ensures message == Message(f)
  {
    var parts := [Greeting];
    ghost var shown := [GreetingPart];
    assert parts == Texts(shown);
    parts := PushSpaceAndLocation(f, parts, shown);
    shown := shown + SpaceAndLocation(f);
    parts := PushTimeAndNote(f, parts, shown);
    shown := shown + TimeAndNote(f);
    parts := parts + [Closing];
    MapSeqSnoc(Render, shown, ClosingPart);
    message := Join(parts, "\n");
  }

  /** The text of an optional part. */
  lemma TextsOfWhen(c: bool, p: Part)
    ensures Texts(When(c, p)) == if c then [Render(p)] else []
  {
    if c {
      MapSeqSnoc(Render, [], p);
      assert [] + [p] == [p];
    }
  }

  /** The space and location pushes. */
  method PushSpaceAndLocation(f: Survey, parts: seq<string>, ghost shown: seq<Part>) returns (parts': seq<string>)
    requires parts == Texts(shown)
    ensures parts' == Texts(shown + SpaceAndLocation(f))
  {
    ghost var w1 := When(IsSet(f.selectedSpace), SpacePart(if f.selectedSpace.Some? then f.selectedSpace.value else ""));
    ghost var w2 := When(f.location != "", LocationPart(f.location));
    TextsOfWhen(IsSet(f.selectedSpace), SpacePart(if f.selectedSpace.Some? then f.selectedSpace.value else ""));
    TextsOfWhen(f.location != "", LocationPart(f.location));
    parts' := parts;
    if f.selectedSpace.Some? && f.selectedSpace.value != "" {
      parts' := parts' + ["\n\U{f0}\U{178}\U{201c} Space Type: " + f.selectedSpace.value];
    }
    assert parts' == parts + Texts(w1);
    if f.location != "" {
      parts' := parts' + ["\U{f0}\U{178}\U{201c}\U{152} Location: " + f.location];
    }
    assert parts' == (parts + Texts(w1)) + Texts(w2);
    AppendAssoc(parts, Texts(w1), Texts(w2));
    MapSeqAppend(Render, w1, w2);
    MapSeqAppend(Render, shown, w1 + w2);
  }

  /** The time and note pushes. */
  method PushTimeAndNote(f: Survey, parts: seq<string>, ghost shown: seq<Part>) returns (parts': seq<string>)
    requires parts == Texts(shown)
    ensures parts' == Texts(shown + TimeAndNote(f))
  {
    ghost var w1 := When(IsSet(f.selectedTime), TimePart(if f.selectedTime.Some? then f.selectedTime.value else ""));
    ghost var w2 := When(f.note != "", NotePart(f.note));
    TextsOfWhen(IsSet(f.selectedTime), TimePart(if f.selectedTime.Some? then f.selectedTime.value else ""));
    TextsOfWhen(f.note != "", NotePart(f.note));
    parts' := parts;
    if f.selectedTime.Some? && f.selectedTime.value != "" {
      parts' := parts' + ["\U{e2}\U{b0} Preferred Time: " + f.selectedTime.value];
    }
    assert parts' == parts + Texts(w1);
    if f.note != "" {
      parts' := parts' + ["\U{f0}\U{178}\U{201c} Note: " + f.note];
    }
    assert parts' == (parts + Texts(w1)) + Texts(w2);
    AppendAssoc(parts, Texts(w1), Texts(w2));
    MapSeqAppend(Render, w1, w2);
    MapSeqAppend(Render, shown, w1 + w2);
  }

  // ---------------------------------------------------------------------------------------
  // Links

  /** `handleWhatsApp`: `WHATSAPP_URL` with the encoded message as its text parameter. */
  function WhatsAppLink(f: Survey): string
  {
    WhatsAppUrl + "?text=" + EncodeURIComponent(Message(f))
  }

  /** `handleEmail`: the fixed subject and the same message, both encoded. */
  function EmailLink(f: Survey): string
  {
    MailTo(Subject, Message(f))
  }

  /** The `mailto:` link to the site's address with the given subject and body, both encoded. */
  function MailTo(subject: string, body: string): string
  {
    "mailto:" + Email + "?subject=" + EncodeURIComponent(subject) + "&body=" + EncodeURIComponent(body)
  }

  /** The WhatsApp link goes to `WHATSAPP_URL` (the digits-only `wa.me` address of the
      site's number, by WhatsAppUrlIsWaMeUrl), and its text parameter is free of query
      delimiters and reads back as the message. */
  lemma WhatsAppLinkCarriesMessage(f: Survey)
    ensures var r := WhatsAppLink(f);
            var n := |WhatsAppUrl| + 6;
            && r[..n] == WhatsAppUrl + "?text="
            && '&' !in r[n..] && '#' !in r[n..] && '\n' !in r[n..]
            && DecodeURIComponent(r[n..]) == Some(Message(f))
  {
    var e := EncodeURIComponent(Message(f));
    var r := WhatsAppLink(f);
    var head := WhatsAppUrl + "?text=";
    assert r == head + e;
    assert r[|head|..] == e;
    EncodedIsQuerySafe(Message(f));
    DecodeEncode(Message(f));
  }

  /** The body parameter comes last in a `mailto:` link and reads back as the body. */
  lemma MailToCarriesBody(subject: string, body: string)
    ensures var r := MailTo(subject, body);
            var e := EncodeURIComponent(body);
            |r| >= |e| + 6 && r[|r| - |e| - 6..] == "&body=" + e && DecodeURIComponent(e) == Some(body)
  {
    var e := EncodeURIComponent(body);
    var x := "mailto:" + Email + "?subject=" + EncodeURIComponent(subject);
    var tail := "&body=" + e;
    AppendAssoc(x, "&body=", e);
    assert MailTo(subject, body) == x + tail;
    assert |tail| == |e| + 6;
    EndsWith(x, tail);
    DecodeEncode(body);
  }

  /** Both links end with the same encoded message, the e-mail's as its body parameter, and
      it reads back as the message. */
  lemma EmailLinkCarriesMessage(f: Survey)
    ensures var r := EmailLink(f);
            var w := WhatsAppLink(f);
            var e := EncodeURIComponent(Message(f));
            && |r| >= |e| + 6 && r[|r| - |e| - 6..] == "&body=" + e
            && |w| >= |e| && w[|w| - |e|..] == e
            && DecodeURIComponent(e) == Some(Message(f))
  {
    MailToCarriesBody(Subject, Message(f));
    EndsWith(WhatsAppUrl + "?text=", EncodeURIComponent(Message(f)));
  }

  lemma EndsWith(x: string, y: string)
    ensures (x + y)[|x + y| - |y|..] == y
  {
  }

  /** The e-mail's subject parameter reads back as the fixed subject. */
  lemma SubjectDecodes()
    ensures DecodeURIComponent(EncodeURIComponent(Subject)) == Some(Subject)
  {
    DecodeEncode(Subject);
  }

  // ---------------------------------------------------------------------------------------
  // The component's state

  /** The four `useState` fields of the form. */
  class SurveyForm {
    var selectedSpace: Option<string>
    var location: string
    var selectedTime: Option<string>
    var note: string

    function Current(): Survey
      reads this
    {
      Survey(selectedSpace, location, selectedTime, note)
    }

    /** A chosen space or time is one of the buttons' values. */
    predicate Valid()
      reads this
    {
      && (selectedSpace.None? || selectedSpace.value in SpaceTypes)
      && (selectedTime.None? || selectedTime.value in PreferredTimes)
    }

    constructor()
      ensures Current() == Blank && Valid()
    {
      selectedSpace := None;
      location := "";
      selectedTime := None;
      note := "";
    }

    /** A space-type button. */
    method ChooseSpace(t: string)
      requires Valid() && t in SpaceTypes
      modifies this
      ensures Current() == old(Current()).(selectedSpace := Some(t)) && Valid()
    {
      selectedSpace := Some(t);
    }

    /** The location input. */
    method SetLocation(l: string)
      requires Valid()
      modifies this
      ensures Current() == old(Current()).(location := l) && Valid()
    {
      location := l;
    }

    /** A preferred-time button. */
    method ChooseTime(t: string)
      requires Valid() && t in PreferredTimes
      modifies this
      ensures Current() == old(Current()).(selectedTime := Some(t)) && Valid()
    {
      selectedTime := Some(t);
    }

    /** The note text area. */
    method SetNote(n: string)
      requires Valid()
      modifies this
      ensures Current() == old(Current()).(note := n) && Valid()
    {
      note := n;
    }

    /** `generateMessage` on the form's current fields. */
    method GenerateMessage() returns (message: string)
      ensures message == Message(Current())
    {
      message := ComposeMessage(Current());
    }
  }
}
