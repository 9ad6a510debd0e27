// ORDER BY of the queries that pick rows: a higher priority first, then an
// earlier time, then an earlier creation.
module Ordering {
  datatype Place = Place(priority: int, at: int, createdAt: int)

  predicate GoesBefore(a: Place, b: Place) {
    || a.priority > b.priority
    || (a.priority == b.priority && (a.at < b.at || (a.at == b.at && a.createdAt <= b.createdAt)))
  }

  // LIMIT 1
  method First(places: map<string, Place>) returns (id: string)
    requires places != map[]
    ensures id in places && forall other | other in places :: GoesBefore(places[id], places[other])
  {
    id :| id in places;
    var rest := places.Keys - {id};
    while rest != {}
      invariant rest <= places.Keys && id in places
      invariant forall other | other in places && other !in rest :: GoesBefore(places[id], places[other])
      decreases |rest|
    {
      var other :| other in rest;
      if !GoesBefore(places[id], places[other]) {
        id := other;
      }
      rest := rest - {other};
    }
  }
}
