/** `PictureRepository`: the picture metadata records, by checksum. */
module Repository {
  import opened Wrappers
  import opened PictureModel

  /** Every record is stored under its own checksum. */
  ghost predicate KeyedByChecksum(pictures: map<string, Picture>)
  {
    forall c :: c in pictures ==> pictures[c].checksum == c
  }

  /** `findById`. */
  function Find(pictures: map<string, Picture>, id: string): (r: Option<Picture>)
    ensures r.Some? <==> id in pictures
    ensures r.Some? ==> r.value == pictures[id]
  {
    if id in pictures then Some(pictures[id]) else None
  }

  /** In a repository keyed by checksum, a record found under an id has that id as checksum. */
  lemma FoundUnderOwnChecksum(pictures: map<string, Picture>, id: string)
    requires KeyedByChecksum(pictures) && id in pictures
    ensures Find(pictures, id).value.checksum == id
  {
  }

  /** Saving a record and deleting one keep the repository keyed by checksum. */
  lemma UpdatesKeepKeyedByChecksum(pictures: map<string, Picture>, p: Picture)
    requires KeyedByChecksum(pictures)
    ensures KeyedByChecksum(pictures[p.checksum := p])
    ensures KeyedByChecksum(pictures - {p.checksum})
  {
  }

  /** The metadata store: a JPA `CrudRepository<Picture, String>`. */
  class PictureRepository {
    var pictures: map<string, Picture>

    constructor (initial: map<string, Picture>)
      ensures pictures == initial
    {
      pictures := initial;
    }

    method FindById(id: string) returns (r: Option<Picture>)
      ensures r == Find(pictures, id)
    {
      r := Find(pictures, id);
    }

    /** `save`: stores the record under its checksum and returns it. */
    method Save(p: Picture) returns (saved: Picture)
      modifies this
      ensures pictures == old(pictures)[p.checksum := p] && saved == p
    {
      pictures := pictures[p.checksum := p];
      saved := p;
    }

    /** `delete(entity)`: removes the record with the entity's checksum. */
    method Delete(p: Picture)
      modifies this
      ensures pictures == old(pictures) - {p.checksum}
    {
      pictures := pictures - {p.checksum};
    }
  }
}
