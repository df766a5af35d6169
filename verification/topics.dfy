/** The values that travel between the services, and a few facts about finite collections. */
module Topics {

  datatype Option<+T> = None | Some(value: T)

  // The JSON body of a record on the submissions topic.
  datatype SubmissionEvent = SubmissionEvent(id: string, problem: string, code: string, language: string)

  // The JSON body of a record on the results topic.
  datatype ResultEvent = ResultEvent(id: string, status: string, message: string)

  // A record on the submissions topic either decodes or it does not.
  datatype Message = Malformed | Submission(event: SubmissionEvent)

  const PENDING := "Pending"

  ghost predicate Distinct<T>(s: seq<T>) {
    forall i, j :: 0 <= i < j < |s| ==> s[i] != s[j]
  }

  lemma SubsetCardinality<T>(a: set<T>, b: set<T>)
    requires a <= b
    ensures |a| <= |b|
  {
    if a != {} {
      var x :| x in a;
      SubsetCardinality(a - {x}, b - {x});
    }
  }

  ghost function Image<A, B>(s: set<A>, f: A -> B): (image: set<B>) {
    set x | x in s :: f(x)
  }

  lemma ImageCardinality<A, B>(s: set<A>, f: A -> B)
    ensures |Image(s, f)| <= |s|
  {
    if s != {} {
      var y :| y in s;
      ImageCardinality(s - {y}, f);
      assert Image(s, f) <= Image(s - {y}, f) + {f(y)};
      SubsetCardinality(Image(s, f), Image(s - {y}, f) + {f(y)});
    }
  }
}
