/** The three counters at the top of the admin page. */
module StatsCards {
  import opened Projects
  import Seqs

  predicate IsPublicProject(p: Project)
  {
    p.isPublic
  }

  predicate IsPrivateProject(p: Project)
  {
    !p.isPublic
  }

  /** The test of one status filter. */
  function HasStatus(status: string): Project -> bool
  {
    (p: Project) => p.status == status
  }

  /** `projects.filter(p => p.status === status).length`. */
  function CountStatus(ps: seq<Project>, status: string): (n: nat)
    ensures n <= |ps|
    ensures n == 0 <==> forall i :: 0 <= i < |ps| ==> ps[i].status != status
  {
    Seqs.KeepEmpty(ps, HasStatus(status));
    |Seqs.Keep(ps, HasStatus(status))|
  }

  /** Every project is public or private, and not both. */
  lemma {:induction false} VisibilityPartition(ps: seq<Project>)
    ensures |Seqs.Keep(ps, IsPublicProject)| + |Seqs.Keep(ps, IsPrivateProject)| == |ps|
  {
    if |ps| > 0 {
      VisibilityPartition(ps[1..]);
    }
  }

  /** A project has one status, so the four status counts together never
      exceed the number of projects. */
  lemma {:induction false} StatusCountsFit(ps: seq<Project>)
    ensures CountStatus(ps, COMPLETED) + CountStatus(ps, IN_PROGRESS)
          + CountStatus(ps, PLANNING) + CountStatus(ps, MAINTENANCE) <= |ps|
  {
    if |ps| > 0 {
      StatusCountsFit(ps[1..]);
    }
  }

  /** The `stats` object. */
  datatype Stats = Stats(total: nat, public: nat, private: nat, completed: nat, inProgress: nat, planning: nat)

  /** `stats`: the visibility counts split the total, and the three status
      counts it keeps (maintenance is not among them) add up to at most the
      total. */
  function ComputeStats(ps: seq<Project>): (s: Stats)
    ensures s.total == |ps|
    ensures s.public == |Seqs.Keep(ps, IsPublicProject)| && s.private == |Seqs.Keep(ps, IsPrivateProject)|
    ensures s.completed == CountStatus(ps, COMPLETED) && s.inProgress == CountStatus(ps, IN_PROGRESS)
    ensures s.planning == CountStatus(ps, PLANNING)
    ensures s.public + s.private == s.total
    ensures s.completed + s.inProgress + s.planning <= s.total
    ensures s.public <= s.total && s.private <= s.total
    ensures s.completed <= s.total && s.inProgress <= s.total && s.planning <= s.total
  {
    VisibilityPartition(ps);
    StatusCountsFit(ps);
    Stats(|ps|,
          |Seqs.Keep(ps, IsPublicProject)|,
          |Seqs.Keep(ps, IsPrivateProject)|,
          CountStatus(ps, COMPLETED),
          CountStatus(ps, IN_PROGRESS),
          CountStatus(ps, PLANNING))
  }

  /** A project that is neither completed, in progress nor planned is counted
      in the total but in none of the status counters. */
  lemma MaintenanceIsNotCounted(p: Project)
    requires p.status == MAINTENANCE
    ensures ComputeStats([p]).total == 1
    ensures ComputeStats([p]).completed + ComputeStats([p]).inProgress + ComputeStats([p]).planning == 0
  {
  }

  /** One card: its caption, its number, its gradient and its icon. */
  datatype StatCard = StatCard(caption: string, value: nat, gradient: string, icon: string)

  /** `cards`: total, public and private, in that order. */
  function Cards(ps: seq<Project>): (cards: seq<StatCard>)
    ensures |cards| == 3
    ensures cards[0].caption == "Total Projects" && cards[0].value == |ps|
    ensures cards[1].caption == "Public" && cards[2].caption == "Private"
    ensures cards[1].value == ComputeStats(ps).public && cards[2].value == ComputeStats(ps).private
    ensures cards[1].value + cards[2].value == cards[0].value
  {
    var s := ComputeStats(ps);
    [StatCard("Total Projects", s.total, "from-blue-500 to-blue-600", "\U{1F4CA}"),
     StatCard("Public", s.public, "from-green-500 to-green-600", "\U{1F310}"),
     StatCard("Private", s.private, "from-red-500 to-red-600", "\U{1F512}")]
  }
}
