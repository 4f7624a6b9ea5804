/** `DataLoader`: the start-up seeding of sample events. Samples whose name
    is already taken are skipped, so re-running the loader adds nothing. */
module DataLoader {
  import opened Wrappers
  import opened Domain

  /** `TicketTypeInfo(name, price, description, totalAvailable)`; prices in cents. */
  datatype TicketTypeInfo = Info(name: string, price: int, description: string, totalAvailable: int)

  /** The builder arguments of one sample event (its relative dates are not modelled). */
  datatype SampleSpec = Sample(name: string, venue: string, status: EventStatus, infos: seq<TicketTypeInfo>)

  /** An event entity before it is saved. `ref` stands for the object's
      identity, which each ticket type points back to. */
  datatype EventDraft = EventDraft(ref: nat, name: string, venue: string, status: EventStatus,
                                   ticketTypes: seq<TicketTypeDraft>)

  datatype TicketTypeDraft = TicketTypeDraft(name: string, price: int, description: string,
                                             totalAvailable: Option<int>, eventRef: nat)

  /** The twelve samples of `createSampleEvents`, in order. */
  const SampleSpecs: seq<SampleSpec> := [
    Sample("TechCon 2025 - AI & Innovation Summit",
      "Silicon Valley Convention Center, San Francisco, CA",
      Published,
      [Info("Early Bird", 29999, "Limited early bird pricing - includes all sessions", 100),
        Info("General Admission", 49999, "Full access to all conference sessions and workshops", 500),
        Info("VIP Pass", 99999, "VIP seating, exclusive networking dinner, and swag bag", 50)]),
    Sample("Summer Vibes Music Festival",
      "Central Park Amphitheater, New York, NY",
      Published,
      [Info("General Admission", 7999, "Standing area access", 2000),
        Info("Premium", 14999, "Reserved seating with great views", 500),
        Info("VIP Experience", 29999, "Front row access, meet & greet, complimentary drinks", 100)]),
    Sample("Stand-Up Comedy Night with Top Comedians",
      "The Laugh Factory, Los Angeles, CA",
      Published,
      [Info("Standard Seat", 3500, "Great seats for a night of laughs", 200),
        Info("Front Row", 6500, "Best seats in the house - be prepared to be part of the show!", 30)]),
    Sample("Modern Art Gala - Contemporary Masters",
      "Metropolitan Art Gallery, Chicago, IL",
      Published,
      [Info("General Entry", 4500, "Access to all exhibition halls", 300),
        Info("Guided Tour", 7500, "Includes expert-led tour of the exhibition", 50),
        Info("Patron Package", 25000, "Private viewing, champagne reception, artist meet & greet", 25)]),
    Sample("Championship Finals - Basketball Showdown",
      "Madison Square Garden, New York, NY",
      Published,
      [Info("Upper Level", 8999, "Great view of the entire court", 1000),
        Info("Lower Level", 19999, "Closer to the action", 500),
        Info("Courtside", 59999, "Experience the game up close", 50)]),
    Sample("Gourmet Food & Wine Festival",
      "Napa Valley Vineyards, California",
      Published,
      [Info("Tasting Pass", 12500, "10 tasting tickets, souvenir glass", 400),
        Info("Connoisseur", 22500, "Unlimited tastings, chef demos, recipe book", 150),
        Info("Grand Cru", 45000, "All access + private vineyard tour + dinner", 40)]),
    Sample("Startup Pitch Night - Shark Tank Style",
      "Innovation Hub, Austin, TX",
      Published,
      [Info("Observer", 2500, "Watch the pitches and networking", 200),
        Info("Investor Circle", 15000, "Priority seating, post-event mixer with founders", 50)]),
    Sample("Sunrise Yoga & Wellness Retreat",
      "Serenity Gardens, Sedona, AZ",
      Published,
      [Info("Day Pass", 8500, "Single day access to all sessions", 100),
        Info("Full Retreat", 35000, "3-day full experience with meals included", 50),
        Info("Private Sessions", 55000, "Includes 1-on-1 sessions with master instructors", 15)]),
    Sample("eSports Championship - League Finals",
      "Esports Arena, Las Vegas, NV",
      Published,
      [Info("Spectator", 4500, "Watch the action live", 800),
        Info("Gamer Lounge", 9500, "Access to gaming stations and swag", 200),
        Info("All-Access", 17500, "Backstage tour, player autographs, exclusive merch", 75)]),
    Sample("Jazz Under the Stars",
      "Blue Note Jazz Club, New Orleans, LA",
      Published,
      [Info("Standing", 4000, "Standing room with bar access", 150),
        Info("Table Seating", 7500, "Reserved table for two", 40),
        Info("VIP Booth", 20000, "Private booth, bottle service included", 10)]),
    Sample("Master Photography Workshop",
      "Creative Studios, Seattle, WA",
      Published,
      [Info("Workshop Ticket", 18900, "Full day workshop, includes materials and lunch", 30)]),
    Sample("Bestselling Author Book Signing & Talk",
      "Barnes & Noble Union Square, New York, NY",
      Published,
      [Info("Free Entry", 0, "Free admission - book purchase encouraged", 100),
        Info("Book Bundle", 3500, "Includes signed copy of the new book", 75)])
  ]

  /** The ticket type `addTicketTypes` builds from one info for event `ref`. */
  function TypeFor(info: TicketTypeInfo, ref: nat): TicketTypeDraft {
    TicketTypeDraft(info.name, info.price, info.description, Some(info.totalAvailable), ref)
  }

  /** `addTicketTypes(event, infos...)`: one ticket type per info, appended in
      order, each pointing back to the event; nothing else about the event
      changes. */
  method AddTicketTypes(e: EventDraft, infos: seq<TicketTypeInfo>) returns (r: EventDraft)
    ensures r == e.(ticketTypes := r.ticketTypes)
    ensures |r.ticketTypes| == |e.ticketTypes| + |infos|
    ensures r.ticketTypes[..|e.ticketTypes|] == e.ticketTypes
    ensures forall k :: 0 <= k < |infos| ==>
      r.ticketTypes[|e.ticketTypes| + k].name == infos[k].name
      && r.ticketTypes[|e.ticketTypes| + k].price == infos[k].price
      && r.ticketTypes[|e.ticketTypes| + k].description == infos[k].description
      && r.ticketTypes[|e.ticketTypes| + k].totalAvailable == Some(infos[k].totalAvailable)
      && r.ticketTypes[|e.ticketTypes| + k].eventRef == e.ref
  {
    r := e;
    var n := 0;
    while n < |infos|
      invariant 0 <= n <= |infos|
      invariant r == e.(ticketTypes := r.ticketTypes)
      invariant |r.ticketTypes| == |e.ticketTypes| + n
      invariant r.ticketTypes[..|e.ticketTypes|] == e.ticketTypes
      invariant forall k :: 0 <= k < n ==> r.ticketTypes[|e.ticketTypes| + k] == TypeFor(infos[k], e.ref)
    {
      r := r.(ticketTypes := r.ticketTypes + [TypeFor(infos[n], e.ref)]);
      n := n + 1;
    }
  }

  /** `createSampleEvents`: one event per sample, in order. */
  method CreateSampleEvents() returns (events: seq<EventDraft>)
    ensures |events| == |SampleSpecs| == 12
    ensures forall i :: 0 <= i < |events| ==>
      events[i].ref == i && events[i].name == SampleSpecs[i].name
      && events[i].venue == SampleSpecs[i].venue
      && |events[i].ticketTypes| == |SampleSpecs[i].infos|
    ensures forall i :: 0 <= i < |events| ==> events[i].status == Published
    ensures forall i, k :: 0 <= i < |events| && 0 <= k < |SampleSpecs[i].infos| ==>
      var info, t := SampleSpecs[i].infos[k], events[i].ticketTypes[k];
      t.name == info.name && t.price == info.price && t.description == info.description
      && t.totalAvailable == Some(info.totalAvailable) && t.eventRef == i
  {
    events := [];
    var i := 0;
    while i < |SampleSpecs|
      invariant 0 <= i <= |SampleSpecs|
      invariant |events| == i
      invariant forall j :: 0 <= j < i ==>
        events[j].ref == j && events[j].name == SampleSpecs[j].name
        && events[j].venue == SampleSpecs[j].venue && events[j].status == SampleSpecs[j].status
        && |events[j].ticketTypes| == |SampleSpecs[j].infos|
      invariant forall j, k :: 0 <= j < i && 0 <= k < |SampleSpecs[j].infos| ==>
        events[j].ticketTypes[k] == TypeFor(SampleSpecs[j].infos[k], j)
    {
      var spec := SampleSpecs[i];
      var e := AddTicketTypes(EventDraft(i, spec.name, spec.venue, spec.status, []), spec.infos);
      events := events + [e];
      i := i + 1;
    }
    SamplesPublished();
  }

  /** Every sample is built PUBLISHED. */
  lemma SamplesPublished()
    ensures |SampleSpecs| == 12
    ensures forall i :: 0 <= i < |SampleSpecs| ==> SampleSpecs[i].status == Published
  {
  }

  /** The names already stored, `findAll().stream().map(Event::getName)`. */
  function Names(store: seq<EventDraft>): (r: seq<string>)
    ensures |r| == |store|
    ensures forall i :: 0 <= i < |store| ==> r[i] == store[i].name
  {
    if |store| == 0 then [] else [store[0].name] + Names(store[1..])
  }

  /** The samples whose name is not among `names`, in sample order. */
  function NewSamples(samples: seq<EventDraft>, names: seq<string>): (r: seq<EventDraft>)
    ensures |r| <= |samples|
    ensures forall e :: e in r <==> e in samples && e.name !in names
    ensures r == Filter(samples, (e: EventDraft) => e.name !in names)
    ensures IsSubseq(r, samples)
  {
    if |samples| == 0 then []
    else
      var rest := NewSamples(samples[1..], names);
      assert forall e :: e in samples <==> e == samples[0] || e in samples[1..];
      if samples[0].name !in names then [samples[0]] + rest else rest
  }

  /** `run`: save the samples with new names, or nothing when there are none. */
  function Run(store: seq<EventDraft>, samples: seq<EventDraft>): (r: seq<EventDraft>)
    ensures forall e :: e in r <==> e in store || (e in samples && e.name !in Names(store))
    ensures (forall e :: e in samples ==> e.name in Names(store)) ==> r == store
    ensures |r| >= |store| && r[..|store|] == store
    ensures r[|store|..] == NewSamples(samples, Names(store))
  {
    var added := NewSamples(samples, Names(store));
    if |added| == 0 then store
    else
      assert added[0] in added;
      store + added
  }

  /** After a run every sample's name is stored, so a second run saves nothing. */
  lemma RunIdempotent(store: seq<EventDraft>, samples: seq<EventDraft>)
    ensures forall e :: e in samples ==> e.name in Names(Run(store, samples))
    ensures Run(Run(store, samples), samples) == Run(store, samples)
  {
    var r := Run(store, samples);
    forall e | e in samples
      ensures e.name in Names(r)
    {
      if e.name in Names(store) {
        var i :| 0 <= i < |store| && Names(store)[i] == e.name;
        assert r[i] == store[i];
        assert Names(r)[i] == e.name;
      } else {
        var j :| 0 <= j < |r| && r[j] == e;
        assert Names(r)[j] == e.name;
      }
    }
  }
}
