/** The chooser overlay: a list of rows, one of them highlighted, shown or hidden. */
module Menu {
  import opened Digits
  import opened Models

  function Max(a: int, b: int): int { if a < b then b else a }

  function Min(a: int, b: int): int { if a < b then a else b }

  /** Where the highlight lands when `index` is asked for among `n` rows. */
  function Clamp(index: int, n: nat): int {
    Max(0, Min(index, n - 1))
  }

  /** A row's badge, the name on it, and the group under it, empty for none. */
  datatype Row = Row(badge: string, title: string, subtitle: string)

  function RowFor(number: nat, d: Dashboard): Row {
    Row(if number <= 9 then Decimal(number) else "\U{2022}", d.name, d.group)
  }

  /** A row carries the dashboard's name and group, under its number up to nine and under a
      bullet from there on. */
  lemma RowIs(number: nat, d: Dashboard)
    ensures RowFor(number, d).title == d.name && RowFor(number, d).subtitle == d.group
    ensures number < 10 ==> AsciiDigits(RowFor(number, d).badge) && PlaceValue(RowFor(number, d).badge) == number
    ensures number >= 10 ==> RowFor(number, d).badge == "\U{2022}"
  {
    DecimalSpells(number);
  }

  class DashboardMenu {
    var dashboards: seq<Dashboard>
    var selected: int
    var revealed: bool
    // What the list widget shows: its rows and the row it highlights, -1 for none.
    var rows: seq<Row>
    var highlighted: int

    ghost predicate Valid()
      reads this
    {
      && |rows| == |dashboards|
      && (forall i :: 0 <= i < |rows| ==> rows[i] == RowFor(i + 1, dashboards[i]))
      && 0 <= selected
      && (dashboards != [] ==> selected < |dashboards| && highlighted == selected)
    }

    constructor ()
      ensures Valid()
      ensures dashboards == [] && selected == 0 && !revealed
    {
      dashboards, selected, revealed := [], 0, false;
      rows, highlighted := [], -1;
    }

    /** The rows are built anew, in the list's own order. */
    method SetDashboards(ds: seq<Dashboard>)
      requires Valid()
      modifies this
      ensures Valid()
      ensures dashboards == ds && revealed == old(revealed)
      ensures selected == if ds == [] then old(selected) else Clamp(old(selected), |ds|)
    {
      dashboards := ds;
      while rows != []
        invariant dashboards == ds && selected == old(selected) && revealed == old(revealed)
        decreases |rows|
      {
        rows, highlighted := rows[1..], -1;
      }
      for index := 0 to |dashboards|
        invariant dashboards == ds && selected == old(selected) && revealed == old(revealed)
        invariant |rows| == index
        invariant forall i :: 0 <= i < index ==> rows[i] == RowFor(i + 1, ds[i])
      {
        rows := rows + [RowFor(index + 1, dashboards[index])];
      }
      Select(Min(selected, Max(|dashboards| - 1, 0)));
    }

    /** Needs only the rows to be in place: it is what puts the highlight back in range. */
    method Select(index: int)
      requires |rows| == |dashboards| && 0 <= selected
      requires forall i :: 0 <= i < |rows| ==> rows[i] == RowFor(i + 1, dashboards[i])
      modifies `selected, `highlighted
      ensures Valid()
      ensures selected == if dashboards == [] then old(selected) else Clamp(index, |dashboards|)
    {
      if dashboards == [] {
        return;
      }
      selected := Max(0, Min(index, |dashboards| - 1));
      if selected < |rows| {
        highlighted := selected;
      }
    }

    method Open(currentIndex: int)
      requires Valid()
      modifies this
      ensures Valid() && dashboards == old(dashboards)
      ensures revealed == (old(revealed) || dashboards != [])
      ensures selected == if dashboards == [] then old(selected) else Clamp(currentIndex, |dashboards|)
    {
      if dashboards == [] {
        return;
      }
      Select(currentIndex);
      revealed := true;
    }

    method Close()
      requires Valid()
      modifies `revealed
      ensures Valid() && !revealed
    {
      revealed := false;
    }

    method Toggle(currentIndex: int)
      requires Valid()
      modifies this
      ensures Valid() && dashboards == old(dashboards)
      ensures revealed == (!old(revealed) && dashboards != [])
      ensures selected == if old(revealed) || dashboards == [] then old(selected)
                          else Clamp(currentIndex, |dashboards|)
    {
      if revealed {
        Close();
      } else {
        Open(currentIndex);
      }
    }

    method Move(delta: int)
      requires Valid()
      modifies this
      ensures Valid() && dashboards == old(dashboards) && revealed == old(revealed)
      ensures selected == if dashboards == [] then old(selected)
                          else (old(selected) + delta) % |dashboards|
    {
      if dashboards == [] {
        return;
      }
      Select((selected + delta) % |dashboards|);
    }
  }
}
