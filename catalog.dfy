/**
 * The static catalogue of cultural sites (`CULTURAL_SITES`) and the lookup
 * the selection pass does in it (`CULTURAL_SITES.find`).  Coordinates,
 * descriptions and image URLs are display data and are not part of the model.
 */
module Catalog {
  import opened Wrappers

  type SiteId = string

  /** One catalogue record; `category` is the record's `type` field. */
  datatype Site = Site(id: SiteId, name: string, category: string, initialLikes: Option<int>)

  /** The six sites of the shipped catalogue, in order. */
  const CulturalSites: seq<Site> := [
    Site("kordon", "Kordon", "landmark", Some(0)),
    Site("agora", "Ancient Agora", "historical", Some(0)),
    Site("kemeralti", "Kemeralt\U{0131} Bazaar", "shopping", Some(0)),
    Site("boyoz-cafe", "Traditional Boyoz Place", "restaurant", Some(0)),
    Site("asansor", "Historical Elevator", "landmark", Some(0)),
    Site("alsancak", "Alsancak Neighborhood", "cafe", Some(0))
  ]

  /** The ids the catalogue holds. */
  function Ids(sites: seq<Site>): set<SiteId>
  {
    set i | 0 <= i < |sites| :: sites[i].id
  }

  /** `sites.find(s => s.id === id)`: the first record with that id, if any. */
  function Find(sites: seq<Site>, id: SiteId): (r: Option<Site>)
    ensures r.None? <==> id !in Ids(sites)
    ensures r.Some? ==> r.value.id == id
    ensures r.Some? ==> exists i :: 0 <= i < |sites| && sites[i] == r.value
                                    && forall j :: 0 <= j < i ==> sites[j].id != id
  {
    if sites == [] then None
    else if sites[0].id == id then Some(sites[0])
    else
      var r := Find(sites[1..], id);
      assert Ids(sites) == {sites[0].id} + Ids(sites[1..]) by {
        forall x | x in Ids(sites) ensures x in {sites[0].id} + Ids(sites[1..]) {
          var i :| 0 <= i < |sites| && sites[i].id == x;
          if i > 0 { assert sites[1..][i - 1].id == x; }
        }
      }
      if r.Some? then
        var i :| 0 <= i < |sites[1..]| && sites[1..][i] == r.value
                 && forall j :: 0 <= j < i ==> sites[1..][j].id != id;
        assert sites[i + 1] == r.value;
        assert forall j :: 0 <= j < i + 1 ==> sites[j].id != id by {
          forall j | 0 <= j < i + 1 ensures sites[j].id != id {
            if j > 0 { assert sites[j] == sites[1..][j - 1]; }
          }
        }
        r
      else
        r
  }
}
