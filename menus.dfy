/**
 * The menu helpers of ClientGUIMenus.py, over a model of a toolkit menu.
 *
 * A menu is its title and the list of its actions, in display order. Each
 * helper appends to that list; AppendSeparator appends a separator only
 * where one is useful. The text-shortening utility the helpers call is not
 * part of this model: it is a function parameter, called with the same
 * length limit the helpers pass.
 */
module ClientGUIMenus {
  import opened MenuLabels

  datatype Option<T> = None | Some(value: T)

  /** The caption length the helpers ask the elision utility for. */
  const ElideLimit: nat := 128

  /** HydrusText.ElideText(text, limit, elide_center = True). */
  type Elider = (string, nat) -> string

  /** One entry of a menu's action list. */
  datatype Entry =
    | Separator
    | Action(text: string, toolTip: string, statusTip: string, whatsThis: string,
             checkable: bool, checked: bool, hasIcon: bool)
    | SubmenuAction(submenu: Menu)

  /**
   * The tooltip AppendMenuItem gives an item whose sanitised caption is
   * `caption` and whose shown text is `elided`: whenever the shown text lost
   * part of the caption the tooltip carries the whole caption, and otherwise
   * it carries the description.
   */
  function ToolTipFor(caption: string, elided: string, description: string): (r: string)
    ensures elided == caption || r == caption
    ensures r == description || (elided != caption && r == caption)
  {
    if elided != caption then caption else description
  }

  predicate EndsWithSeparator(actions: seq<Entry>)
  {
    actions != [] && actions[|actions| - 1].Separator?
  }

  /**
   * The action list after AppendSeparator: it touches only the end of the
   * list, it leaves the list ending in a separator exactly when the list is
   * non-empty, and it adds nothing when the list is empty or already ends in
   * a separator.
   */
  function WithSeparator(actions: seq<Entry>): (r: seq<Entry>)
    ensures r == actions || r == actions + [Separator]
    ensures EndsWithSeparator(r) <==> actions != []
    ensures r == actions <==> (actions == [] || EndsWithSeparator(actions))
  {
    if |actions| > 0 && !actions[|actions| - 1].Separator? then actions + [Separator] else actions
  }

  /** No separator at the top of the menu and no two separators in a row. */
  predicate WellSeparated(actions: seq<Entry>)
  {
    (actions != [] ==> !actions[0].Separator?) &&
    forall i :: 0 < i < |actions| && actions[i].Separator? ==> !actions[i - 1].Separator?
  }

  /** A second AppendSeparator changes nothing. */
  lemma WithSeparatorIdempotent(actions: seq<Entry>)
    ensures WithSeparator(WithSeparator(actions)) == WithSeparator(actions)
  {
  }

  /** AppendSeparator never creates a leading separator or two separators in a row. */
  lemma WithSeparatorKeepsWellSeparated(actions: seq<Entry>)
    requires WellSeparated(actions)
    ensures WellSeparated(WithSeparator(actions))
  {
  }

  /** Appending any entry other than a separator keeps the list well separated. */
  lemma AppendEntryKeepsWellSeparated(actions: seq<Entry>, e: Entry)
    requires WellSeparated(actions)
    requires !e.Separator?
    ensures WellSeparated(actions + [e])
  {
  }

  /** A toolkit menu: its title and its action list. */
  class Menu {
    var title: string
    var actions: seq<Entry>

    constructor ()
      ensures title == [] && actions == []
    {
      title := [];
      actions := [];
    }

    /** AppendMenu: the submenu gets the sanitised label as its title and is added as an entry. */
    method AppendMenu(submenu: Menu, text: string)
      modifies this`actions, submenu`title
      ensures submenu.title == SanitiseLabel(text)
      ensures actions == old(actions) + [SubmenuAction(submenu)]
    {
      var caption := SanitiseLabel(text);
      submenu.title := caption;
      actions := actions + [SubmenuAction(submenu)];
    }

    /** AppendMenuBitmapItem: an item with an icon; all three help texts are the description. */
    method AppendMenuBitmapItem(text: string, description: string, elide: Elider) returns (item: Entry)
      modifies this`actions
      ensures item == Action(elide(SanitiseLabel(text), ElideLimit), description, description, description,
                             false, false, true)
      ensures actions == old(actions) + [item]
    {
      var caption := SanitiseLabel(text);
      item := Action(elide(caption, ElideLimit), description, description, description, false, false, true);
      actions := actions + [item];
    }

    /** AppendMenuCheckItem: a checkable item holding `initialValue`; the help texts are the description. */
    method AppendMenuCheckItem(text: string, description: string, initialValue: bool, elide: Elider)
      returns (item: Entry)
      modifies this`actions
      ensures item == Action(elide(SanitiseLabel(text), ElideLimit), description, description, description,
                             true, initialValue, false)
      ensures actions == old(actions) + [item]
    {
      var caption := SanitiseLabel(text);
      item := Action(elide(caption, ElideLimit), description, description, description, true, initialValue, false);
      actions := actions + [item];
    }

    /**
     * AppendMenuItem: the shown text is the elided sanitised label; the
     * tooltip follows ToolTipFor; status tip and what's-this text are the
     * description.
     */
    method AppendMenuItem(text: string, description: string, elide: Elider) returns (item: Entry)
      modifies this`actions
      ensures var caption := SanitiseLabel(text);
              var elided := elide(caption, ElideLimit);
              item == Action(elided, ToolTipFor(caption, elided, description), description, description,
                             false, false, false)
      ensures actions == old(actions) + [item]
      ensures WithSeparator(actions) == actions + [Separator]
    {
      var caption := SanitiseLabel(text);
      var elided := elide(caption, ElideLimit);
      var toolTip := ToolTipFor(caption, elided, description);
      item := Action(elided, toolTip, description, description, false, false, false);
      actions := actions + [item];
    }

    /**
     * AppendMenuLabel: the label is elided but NOT sanitised; a missing
     * description counts as the empty one, and all help texts are that.
     */
    method AppendMenuLabel(text: string, description: Option<string>, elide: Elider) returns (item: Entry)
      modifies this`actions
      ensures var d := if description.Some? then description.value else [];
              item == Action(elide(text, ElideLimit), d, d, d, false, false, false)
      ensures actions == old(actions) + [item]
    {
      var d := if description.None? then [] else description.value;
      item := Action(elide(text, ElideLimit), d, d, d, false, false, false);
      actions := actions + [item];
    }

    /** AppendSeparator: adds a separator only after a last entry that is not one. */
    method AppendSeparator()
      modifies this`actions
      ensures actions == WithSeparator(old(actions))
      ensures WellSeparated(old(actions)) ==> WellSeparated(actions)
    {
      var numItems := |actions|;
      if numItems > 0 {
        var lastItem := actions[numItems - 1];
        if !lastItem.Separator? {
          actions := actions + [Separator];
        }
      }
      if WellSeparated(old(actions)) {
        WithSeparatorKeepsWellSeparated(old(actions));
      }
    }
  }

  /**
   * What AppendMenuItem shows the user. When elision kept the caption whole,
   * the toolkit reads the menu text back as exactly the label. When it did
   * not, the tooltip is the sanitised caption itself: the label with every
   * '&' doubled, since a tooltip is shown as written.
   */
  lemma MenuItemShowsLabel(text: string, description: string, elide: Elider)
    requires text != []
    ensures var caption := SanitiseLabel(text);
            var elided := elide(caption, ElideLimit);
            var tip := ToolTipFor(caption, elided, description);
            (elided == caption ==> CollapseAmpersands(elided) == text) &&
            (elided != caption ==> tip == caption && tip == EscapeAmpersands(text))
  {
  }

  /** An elided label "a&b" gets the tooltip "a&&b", with the ampersand doubled. */
  lemma ElidedToolTipDoublesAmpersand(description: string, elide: Elider)
    requires elide(SanitiseLabel("a&b"), ElideLimit) != SanitiseLabel("a&b")
    ensures ToolTipFor(SanitiseLabel("a&b"), elide(SanitiseLabel("a&b"), ElideLimit), description) == "a&&b"
  {
  }
}
