/** The entities the report parser creates (the ORM classes of models.py
    that it fills in) and the database session it adds them to. Officers and
    dispatchers are looked up by badge number; an incident owns its
    responding officers, location changes and referral records. */
module Records {
  import opened Strings
  import opened Dates

  datatype Officer = Officer(number: nat, lastName: string, firstName: string)

  datatype Dispatcher = Dispatcher(number: nat, lastName: string, firstName: string)

  /** One officer's part in an incident, with the times the timing lines give. */
  datatype RespondingOfficer = RespondingOfficer(
    officer: Officer,
    dispatchTime: Option<DateTime>,
    arrivalTime: Option<DateTime>,
    clearedTime: Option<DateTime>)

  datatype LocationChange = LocationChange(location: string, changeDate: Option<DateTime>)

  /** The three referral kinds that get a record of their own. */
  datatype AuxKind = ProtectiveCustody | Arrest | Summons

  /** A protective custody, arrest or summons record. The parser writes the
      age into `age_at_custody` for a custody and into `age` for the other two;
      here it is `age` for all three. */
  datatype AuxRecord = AuxRecord(
    kind: AuxKind,
    lastName: Option<string>,
    firstName: Option<string>,
    address: Option<string>,
    age: Option<nat>,
    charges: Option<string>)

  function NewAuxRecord(kind: AuxKind): AuxRecord {
    AuxRecord(kind, None, None, None, None, None)
  }

  /** An incident. Latitude and longitude are kept as the coordinate texts
      that `float()` accepted. */
  datatype Incident = Incident(
    reportId: string,
    dispatchTime: DateTime,
    dispatchSource: string,
    category: string,
    outcome: string,
    callTaker: Option<Dispatcher>,
    primaryOfficer: Option<Officer>,
    location: Option<string>,
    latitude: Option<string>,
    longitude: Option<string>,
    jurisdiction: Option<string>,
    auxEventType: Option<string>,
    auxEventId: Option<string>,
    responders: seq<RespondingOfficer>,
    locationChanges: seq<LocationChange>,
    auxRecords: seq<AuxRecord>)

  /** Whether any object that refers to the incident has been added to the
      session; adding such an object brings the incident along with it. */
  predicate HasDependents(i: Incident) {
    i.responders != [] || i.locationChanges != [] || i.auxRecords != []
  }

  /** What the session holds: the officers and dispatchers a query by number
      finds, and the incidents added so far. */
  datatype Store = Store(officers: map<nat, Officer>, dispatchers: map<nat, Dispatcher>, incidents: seq<Incident>)

  /** Every stored officer and dispatcher is found under its own number. */
  predicate WellKeyed(s: Store) {
    && (forall n :: n in s.officers ==> s.officers[n].number == n)
    && (forall n :: n in s.dispatchers ==> s.dispatchers[n].number == n)
  }

  /** `s2` holds everything `s1` holds, and possibly more. */
  predicate Extends(s1: Store, s2: Store) {
    && (forall n :: n in s1.officers ==> n in s2.officers && s2.officers[n] == s1.officers[n])
    && (forall n :: n in s1.dispatchers ==> n in s2.dispatchers && s2.dispatchers[n] == s1.dispatchers[n])
    && s1.incidents <= s2.incidents
  }

  lemma ExtendsTransitive(s1: Store, s2: Store, s3: Store)
    requires Extends(s1, s2) && Extends(s2, s3)
    ensures Extends(s1, s3)
  {
  }

  /** An object a line adds to the session. */
  datatype Added = AddedOfficer(officer: Officer) | AddedDispatcher(dispatcher: Dispatcher)

  /** The store after `db_session.add` of a new officer or dispatcher (one the
      query by its number did not find). */
  function AddNew(s: Store, a: Added): (r: Store)
    requires a.AddedOfficer? ==> a.officer.number !in s.officers
    requires a.AddedDispatcher? ==> a.dispatcher.number !in s.dispatchers
    ensures Extends(s, r) && r.incidents == s.incidents
    ensures WellKeyed(s) ==> WellKeyed(r)
    ensures a.AddedOfficer? ==> r.officers.Keys == s.officers.Keys + {a.officer.number} && r.dispatchers == s.dispatchers
    ensures a.AddedOfficer? ==> r.officers[a.officer.number] == a.officer
    ensures a.AddedDispatcher? ==> r.dispatchers.Keys == s.dispatchers.Keys + {a.dispatcher.number} && r.officers == s.officers
    ensures a.AddedDispatcher? ==> r.dispatchers[a.dispatcher.number] == a.dispatcher
  {
    match a
    case AddedOfficer(o) => s.(officers := s.officers[o.number := o])
    case AddedDispatcher(d) => s.(dispatchers := s.dispatchers[d.number := d])
  }

  /** The store after `db_session.add(incident)`. */
  function AddIncident(s: Store, i: Incident): (r: Store)
    ensures Extends(s, r) && r.incidents == s.incidents + [i]
    ensures r.officers == s.officers && r.dispatchers == s.dispatchers
  {
    s.(incidents := s.incidents + [i])
  }

  /** The database session the parser works through. */
  class Session {
    var officers: map<nat, Officer>
    var dispatchers: map<nat, Dispatcher>
    var incidents: seq<Incident>

    function Contents(): Store
      reads this
    {
      Store(officers, dispatchers, incidents)
    }

    constructor (initial: Store)
      ensures Contents() == initial
    {
      officers := initial.officers;
      dispatchers := initial.dispatchers;
      incidents := initial.incidents;
    }

    /** `db_session.add(obj)` for a new officer or dispatcher. */
    method AddEntity(a: Added)
      requires a.AddedOfficer? ==> a.officer.number !in officers
      requires a.AddedDispatcher? ==> a.dispatcher.number !in dispatchers
      modifies this
      ensures Contents() == AddNew(old(Contents()), a)
    {
      match a
      case AddedOfficer(o) =>
        officers := officers[o.number := o];
      case AddedDispatcher(d) =>
        dispatchers := dispatchers[d.number := d];
    }

    /** `db_session.add(incident)`. */
    method Add(i: Incident)
      modifies this
      ensures Contents() == AddIncident(old(Contents()), i)
    {
      incidents := incidents + [i];
    }
  }
}
