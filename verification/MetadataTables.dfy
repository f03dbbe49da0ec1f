/** The metadata tables of a vault, with the constraints the database enforces,
    and the rewriting of path prefixes. */
module MetadataTables {
  import opened Wrappers
  import opened Documents

  type Path = string

  /** A document row; `body` stands for the columns no mutation here reads. */
  datatype Document = Document(path: Path, body: string, updatedAt: nat)

  /** A row that records how a file's metadata got into the database. Its path
      is the key of the table. */
  datatype Migration = Migration(documentId: Option<DocId>, original: Path, status: string, updatedAt: nat)

  datatype Graph = Graph(documents: map<DocId, Document>, migrations: map<Path, Migration>,
                         associations: set<(DocId, int)>, embeddings: map<DocId, string>)

  datatype Failure = SamePrefix | OwnSubtree | DocumentCollision | MigrationCollision | VersionOverflow
                   | Mismatch | UniqueViolation

  ghost predicate UniquePaths(documents: map<DocId, Document>) {
    forall a, b | a in documents && b in documents && a != b :: documents[a].path != documents[b].path
  }

  /** `p` is the folder `prefix` itself or below it. */
  predicate Within(p: Path, prefix: Path) {
    p == prefix || prefix + "/" <= p
  }

  function Move(p: Path, from: Path, to: Path): Path {
    if Within(p, from) then to + p[|from|..] else p
  }

  /** Exactly the folder and the paths with it as leading components. */
  lemma WithinMeans(p: Path, prefix: Path)
    ensures Within(p, prefix) <==> p == prefix || exists r :: p == prefix + "/" + r
  {
    if prefix + "/" <= p {
      assert p == prefix + "/" + p[|prefix| + 1..];
    }
  }

  /** A move replaces the leading components and leaves other paths alone. */
  lemma MoveMeans(p: Path, r: Path, from: Path, to: Path)
    ensures Move(from, from, to) == to && Move(from + "/" + r, from, to) == to + "/" + r
    ensures !Within(p, from) ==> Move(p, from, to) == p
  {
    var q := from + "/" + r;
    assert q[..|from| + 1] == from + "/";
    assert q[|from|..] == "/" + r;
    assert to + ("/" + r) == to + "/" + r;
  }

  lemma MoveIsInjective(p: Path, q: Path, from: Path, to: Path)
    requires Within(p, from) && Within(q, from) && Move(p, from, to) == Move(q, from, to)
    ensures p == q
  {
    assert p == from + p[|from|..] && q == from + q[|from|..];
    assert to + p[|from|..] == to + q[|from|..];
    assert (to + p[|from|..])[|to|..] == p[|from|..] && (to + q[|from|..])[|to|..] == q[|from|..];
  }

  /** A moved path never equals a path below the source that is as long or
      longer, even when the destination is an ancestor of the source. */
  lemma NoClashAhead(p: Path, q: Path, from: Path, to: Path)
    requires Within(p, from) && Within(q, from) && |p| <= |q|
    requires from != to && !Within(to, from)
    ensures Move(p, from, to) != q
  {
    var moved := Move(p, from, to);
    assert q[..|from|] == from;
    if |to| == |from| {
      assert moved[..|from|] == to;
    } else if |to| > |from| {
      assert moved[..|to|] == to;
      if |q| > |from| {
        assert q[..|from| + 1] == from + "/";
        assert moved[..|from| + 1] == to[..|from| + 1];
      }
    }
  }
}
