/**
 * The CSV export schema of `capture_user_detail_to_csv.py`: the column list
 * (`compute_fieldnames`) and the projection of one user onto it (the row
 * dictionary `write_user_chunk` fills before `writerow`).
 */
module ExportSchema {
  import opened Common
  import opened Users

  /** Role name -> requested permission types, in configuration order. */
  type TargetPermissions = seq<(string, seq<string>)>

  /** A row dictionary: column name -> cell, in insertion order. */
  type Row = seq<(string, Value)>

  function MediaColumn(mediaType: string): string {
    "media_enabled_" + mediaType
  }

  function PermissionColumn(role: string, ptype: string): string {
    role + "_" + ptype
  }

  // ---------------------------------------------------------------------
  // compute_fieldnames
  // ---------------------------------------------------------------------

  /** One media column per media type, in list order. */
  function MediaColumns(ms: seq<MediaType>): (cols: seq<string>)
    ensures |cols| == |ms|
    ensures forall i :: 0 <= i < |ms| ==> cols[i] == MediaColumn(ms[i].mtype)
  {
    if ms == [] then []
    else MediaColumns(ms[..|ms| - 1]) + [MediaColumn(ms[|ms| - 1].mtype)]
  }

  /** The media columns the sample user contributes: none unless asked for and present. */
  function SampleMediaColumns(sample: User, includeMedia: bool): (cols: seq<string>)
    ensures cols != [] ==> includeMedia && sample.generalInfo.mediaTypes.Some?
  {
    if includeMedia && sample.generalInfo.mediaTypes.Some?
    then MediaColumns(sample.generalInfo.mediaTypes.value)
    else []
  }

  /** The columns one role asks for: `<role>_<perm>` per requested type. */
  function RoleColumns(role: string, perms: seq<string>): (cols: seq<string>)
    ensures |cols| == |perms|
    ensures forall j :: 0 <= j < |perms| ==> cols[j] == PermissionColumn(role, perms[j])
  {
    if perms == [] then []
    else RoleColumns(role, perms[..|perms| - 1]) + [PermissionColumn(role, perms[|perms| - 1])]
  }

  /** All permission columns, role by role in configuration order. */
  function PermissionColumns(tp: TargetPermissions): (cols: seq<string>)
    ensures forall i, j :: 0 <= i < |tp| && 0 <= j < |tp[i].1| ==>
              PermissionColumn(tp[i].0, tp[i].1[j]) in cols
  {
    if tp == [] then []
    else
      var last := tp[|tp| - 1];
      var cols := PermissionColumns(tp[..|tp| - 1]) + RoleColumns(last.0, last.1);
      assert forall i, j :: 0 <= i < |tp| - 1 && 0 <= j < |tp[i].1| ==>
               PermissionColumn(tp[i].0, tp[i].1[j]) == PermissionColumn(tp[..|tp| - 1][i].0, tp[..|tp| - 1][i].1[j]);
      assert forall j :: 0 <= j < |last.1| ==> RoleColumns(last.0, last.1)[j] in cols;
      cols
  }

  /**
   * The column list: the general-info fields exactly as given, then the
   * sample's media columns, then the permission columns, each appended only
   * if not already present.
   */
  function Fieldnames(sample: User, general: seq<string>, tp: TargetPermissions, includeMedia: bool): (r: seq<string>)
    ensures |general| <= |r| && r[..|general|] == general
    ensures forall a :: a in general ==> a in r
  {
    var withMedia := AppendNew(general, SampleMediaColumns(sample, includeMedia));
    var r := AppendNew(withMedia, PermissionColumns(tp));
    assert r[..|general|] == r[..|withMedia|][..|general|];
    r
  }

  /**
   * The columns are exactly the general fields, the sample's media columns
   * and the permission columns, and no column after the general fields
   * repeats an earlier one.
   */
  lemma FieldnamesColumns(sample: User, general: seq<string>, tp: TargetPermissions, includeMedia: bool)
    ensures var r := Fieldnames(sample, general, tp, includeMedia);
            && (forall c :: c in r <==> c in general || c in SampleMediaColumns(sample, includeMedia) || c in PermissionColumns(tp))
            && FreshFrom(r, |general|)
  {
    var media := SampleMediaColumns(sample, includeMedia);
    var withMedia := AppendNew(general, media);
    var r := Fieldnames(sample, general, tp, includeMedia);
    AppendNewFresh(general, media);
    AppendNewFresh(withMedia, PermissionColumns(tp));
    forall i, j | 0 <= j < i < |r| && |general| <= i
      ensures r[i] != r[j]
    {
      if i < |withMedia| {
        assert r[i] == withMedia[i] && r[j] == withMedia[j];
      }
    }
  }

  /** Every requested `<role>_<perm>` is a column. */
  lemma FieldnamesHavePermissionColumns(sample: User, general: seq<string>, tp: TargetPermissions, includeMedia: bool)
    ensures forall i, j :: 0 <= i < |tp| && 0 <= j < |tp[i].1| ==>
              PermissionColumn(tp[i].0, tp[i].1[j]) in Fieldnames(sample, general, tp, includeMedia)
  {
    var r := Fieldnames(sample, general, tp, includeMedia);
    FieldnamesColumns(sample, general, tp, includeMedia);
    forall i, j | 0 <= i < |tp| && 0 <= j < |tp[i].1|
      ensures PermissionColumn(tp[i].0, tp[i].1[j]) in r
    {
      assert PermissionColumn(tp[i].0, tp[i].1[j]) in PermissionColumns(tp);
    }
  }

  /**
   * The media columns come straight after the general fields and before every
   * permission column; there are none unless media types were asked for and
   * the sample has them.
   */
  lemma FieldnamesLayout(sample: User, general: seq<string>, tp: TargetPermissions, includeMedia: bool)
    ensures var r := Fieldnames(sample, general, tp, includeMedia);
            var media := SampleMediaColumns(sample, includeMedia);
            var k := |AppendNew(general, media)|;
            && |general| <= k <= |r|
            && (!includeMedia || sample.generalInfo.mediaTypes.None? ==> k == |general|)
            && (forall i :: |general| <= i < k ==> r[i] in media)
            && (forall i :: k <= i < |r| ==> r[i] in PermissionColumns(tp))
  {
    var media := SampleMediaColumns(sample, includeMedia);
    var withMedia := AppendNew(general, media);
    var r := Fieldnames(sample, general, tp, includeMedia);
    assert r == AppendNew(withMedia, PermissionColumns(tp));
    AppendNewFresh(general, media);
    AppendNewFresh(withMedia, PermissionColumns(tp));
    forall i | |general| <= i < |withMedia|
      ensures r[i] in media
    {
      assert r[i] == withMedia[i];
    }
  }

  /** `compute_fieldnames`, appending column by column. */
  method ComputeFieldnames(sample: User, general: seq<string>, tp: TargetPermissions, includeMedia: bool)
    returns (fieldnames: seq<string>)
    ensures fieldnames == Fieldnames(sample, general, tp, includeMedia)
  {
    fieldnames := general;
    if includeMedia {
      match sample.generalInfo.mediaTypes
      case None =>
        // the missing attribute is swallowed by the try/except: no media columns
      case Some(ms) =>
        fieldnames := AppendMediaColumns(fieldnames, ms);
    }
    fieldnames := AppendPermissionColumns(fieldnames, tp);
  }

  /** The media-type loop of `compute_fieldnames`. */
  method AppendMediaColumns(start: seq<string>, ms: seq<MediaType>) returns (fieldnames: seq<string>)
    ensures fieldnames == AppendNew(start, MediaColumns(ms))
  {
    fieldnames := start;
    var k := 0;
    while k < |ms|
      invariant 0 <= k <= |ms|
      invariant fieldnames == AppendNew(start, MediaColumns(ms[..k]))
    {
      var col := MediaColumn(ms[k].mtype);
      assert ms[..k + 1][..k] == ms[..k];
      AppendNewSnoc(start, MediaColumns(ms[..k]), col);
      if col !in fieldnames {
        fieldnames := fieldnames + [col];
      }
      k := k + 1;
    }
    assert ms[..k] == ms;
  }

  /** The role loop of `compute_fieldnames`. */
  method AppendPermissionColumns(start: seq<string>, tp: TargetPermissions) returns (fieldnames: seq<string>)
    ensures fieldnames == AppendNew(start, PermissionColumns(tp))
  {
    fieldnames := start;
    var i := 0;
    while i < |tp|
      invariant 0 <= i <= |tp|
      invariant fieldnames == AppendNew(start, PermissionColumns(tp[..i]))
    {
      ghost var mid := fieldnames;
      fieldnames := AppendRoleColumns(fieldnames, tp[i].0, tp[i].1);
      assert tp[..i + 1][..i] == tp[..i];
      AppendNewConcat(start, PermissionColumns(tp[..i]), RoleColumns(tp[i].0, tp[i].1));
      i := i + 1;
    }
    assert tp[..i] == tp;
  }

  /** The inner loop over one role's requested permission types. */
  method AppendRoleColumns(start: seq<string>, role: string, perms: seq<string>) returns (fieldnames: seq<string>)
    ensures fieldnames == AppendNew(start, RoleColumns(role, perms))
  {
    fieldnames := start;
    var j := 0;
    while j < |perms|
      invariant 0 <= j <= |perms|
      invariant fieldnames == AppendNew(start, RoleColumns(role, perms[..j]))
    {
      var col := PermissionColumn(role, perms[j]);
      assert perms[..j + 1][..j] == perms[..j];
      AppendNewSnoc(start, RoleColumns(role, perms[..j]), col);
      if col !in fieldnames {
        fieldnames := fieldnames + [col];
      }
      j := j + 1;
    }
    assert perms[..j] == perms;
  }

  // ---------------------------------------------------------------------
  // Row projection (the body of the per-user loop in write_user_chunk)
  // ---------------------------------------------------------------------

  /** A permission value as a cell: the boolean, or None when missing. */
  function Cell(value: Option<bool>): Value {
    match value
    case Some(b) => Flag(b)
    case None => Null
  }

  /** The cell of a general-info attribute: its value, or "" when the record lacks it. */
  function GeneralCell(u: User, attr: string): Value {
    Field(u.generalInfo, attr).GetOr(Text(""))
  }

  /** `for attribute in target_generalInfo_fields: row[attribute] = ...` */
  function GeneralCells(row: Row, u: User, attrs: seq<string>): (r: Row)
    ensures Keys(r) == AppendNew(Keys(row), attrs)
    ensures forall k :: Get(r, k) == if k in attrs then Some(GeneralCell(u, k)) else Get(row, k)
  {
    if attrs == [] then row
    else
      var prefix := attrs[..|attrs| - 1];
      var a := attrs[|attrs| - 1];
      assert attrs == prefix + [a];
      Set(GeneralCells(row, u, prefix), a, GeneralCell(u, a))
  }

  /** The `enabled` flag of the last media type whose column is `col`, if any. */
  function LastMediaFlag(ms: seq<MediaType>, col: string): Option<bool> {
    if ms == [] then None
    else if MediaColumn(ms[|ms| - 1].mtype) == col then Some(ms[|ms| - 1].enabled)
    else LastMediaFlag(ms[..|ms| - 1], col)
  }

  /**
   * Media cells, guarded by column existence (the corrected form): a media
   * type without a column is dropped, a later media type with the same
   * column overwrites an earlier one.
   */
  function MediaTypeCells(row: Row, ms: seq<MediaType>): (r: Row)
    ensures Keys(r) == Keys(row)
    ensures forall k :: Get(r, k) ==
              if k in Keys(row) && LastMediaFlag(ms, k).Some? then Some(Flag(LastMediaFlag(ms, k).value))
              else Get(row, k)
  {
    if ms == [] then row
    else
      var prev := MediaTypeCells(row, ms[..|ms| - 1]);
      var m := ms[|ms| - 1];
      var col := MediaColumn(m.mtype);
      if col in Keys(prev) then Set(prev, col, Flag(m.enabled)) else prev
  }

  /**
   * Media cells as the source writes them: `row[col] = enabled` with no
   * check, so a media type without a column adds a key to the row.
   */
  function MediaTypeCellsAsWritten(row: Row, ms: seq<MediaType>): (r: Row)
    ensures Keys(r) == AppendNew(Keys(row), MediaColumns(ms))
  {
    if ms == [] then row
    else
      var prefix := ms[..|ms| - 1];
      var m := ms[|ms| - 1];
      assert MediaColumns(ms) == MediaColumns(prefix) + [MediaColumn(m.mtype)];
      Set(MediaTypeCellsAsWritten(row, prefix), MediaColumn(m.mtype), Flag(m.enabled))
  }

  function MediaCells(row: Row, u: User, includeMedia: bool): (r: Row)
    ensures Keys(r) == Keys(row)
  {
    if includeMedia && u.generalInfo.mediaTypes.Some?
    then MediaTypeCells(row, u.generalInfo.mediaTypes.value)
    else row
  }

  function MediaCellsAsWritten(row: Row, u: User, includeMedia: bool): Row {
    if includeMedia && u.generalInfo.mediaTypes.Some?
    then MediaTypeCellsAsWritten(row, u.generalInfo.mediaTypes.value)
    else row
  }

  /** The column a permission of `role` feeds: its type must be among the requested ones. */
  function RequestedColumn(role: string, wanted: seq<string>, p: Permission): Option<string> {
    if p.ptype.Some? && p.ptype.value in wanted then Some(PermissionColumn(role, p.ptype.value)) else None
  }

  /** The value of the last permission in `ps` that feeds column `col`, if any. */
  function LastPermissionCell(role: string, wanted: seq<string>, ps: seq<Permission>, col: string): Option<Value> {
    if ps == [] then None
    else if RequestedColumn(role, wanted, ps[|ps| - 1]) == Some(col) then Some(Cell(ps[|ps| - 1].value))
    else LastPermissionCell(role, wanted, ps[..|ps| - 1], col)
  }

  /**
   * `for perm in permissions_list: ... if p_type in perms and col_name in row:
   * row[col_name] = p_value`: a cell changes only when a requested permission
   * feeds it and the column exists; the last such permission wins.
   */
  function PermissionListCells(row: Row, role: string, wanted: seq<string>, ps: seq<Permission>): (r: Row)
    ensures Keys(r) == Keys(row)
    ensures forall k :: Get(r, k) ==
              if k in Keys(row) && LastPermissionCell(role, wanted, ps, k).Some?
              then LastPermissionCell(role, wanted, ps, k)
              else Get(row, k)
  {
    if ps == [] then row
    else
      var prev := PermissionListCells(row, role, wanted, ps[..|ps| - 1]);
      var p := ps[|ps| - 1];
      match RequestedColumn(role, wanted, p)
      case Some(col) => if col in Keys(prev) then Set(prev, col, Cell(p.value)) else prev
      case None => prev
  }

  /** The cells of one requested role; a missing role leaves the row as it is. */
  function RolePermissionCells(row: Row, u: User, role: string, wanted: seq<string>): (r: Row)
    ensures Keys(r) == Keys(row)
    ensures RoleOf(u, role).None? ==> r == row
  {
    match RoleOf(u, role)
    case Some(rl) => PermissionListCells(row, role, wanted, rl.permissions)
    case None => row
  }

  /** The permission cells of every requested role, in configuration order. */
  function PermissionCells(row: Row, u: User, tp: TargetPermissions): (r: Row)
    ensures Keys(r) == Keys(row)
  {
    if tp == [] then row
    else
      var last := tp[|tp| - 1];
      RolePermissionCells(PermissionCells(row, u, tp[..|tp| - 1]), u, last.0, last.1)
  }

  /** The row of one user, every column starting out as "". */
  function ProjectedRow(u: User, fieldnames: seq<string>, general: seq<string>, tp: TargetPermissions, includeMedia: bool): Row {
    var blank := FromKeys(fieldnames, Text(""));
    PermissionCells(MediaCells(GeneralCells(blank, u, general), u, includeMedia), u, tp)
  }

  /** The row of one user as the source builds it (unguarded media cells). */
  function ProjectedRowAsWritten(u: User, fieldnames: seq<string>, general: seq<string>, tp: TargetPermissions, includeMedia: bool): (r: Row)
    ensures forall c :: c in fieldnames ==> c in Keys(r)
    ensures !includeMedia || u.generalInfo.mediaTypes.None? ==> r == ProjectedRow(u, fieldnames, general, tp, includeMedia)
  {
    var blank := FromKeys(fieldnames, Text(""));
    PermissionCells(MediaCellsAsWritten(GeneralCells(blank, u, general), u, includeMedia), u, tp)
  }

  /** The row-filling loop of `write_user_chunk` for one user, cell by cell. */
  method ProjectRow(u: User, fieldnames: seq<string>, general: seq<string>, tp: TargetPermissions, includeMedia: bool)
    returns (row: Row)
    ensures row == ProjectedRow(u, fieldnames, general, tp, includeMedia)
  {
    row := FromKeys(fieldnames, Text(""));
    row := FillGeneralCells(row, u, general);
    if includeMedia && u.generalInfo.mediaTypes.Some? {
      row := FillMediaCells(row, u.generalInfo.mediaTypes.value);
    }
    row := FillPermissionCells(row, u, tp);
  }

  /** `row[attribute] = user.generalInfo[attribute]`, "" when that raises. */
  method FillGeneralCells(start: Row, u: User, general: seq<string>) returns (row: Row)
    ensures row == GeneralCells(start, u, general)
  {
    row := start;
    var i := 0;
    while i < |general|
      invariant 0 <= i <= |general|
      invariant row == GeneralCells(start, u, general[..i])
    {
      assert general[..i + 1][..i] == general[..i];
      row := Set(row, general[i], GeneralCell(u, general[i]));
      i := i + 1;
    }
    assert general[..i] == general;
  }

  /** The media loop, each cell written only if its column exists. */
  method FillMediaCells(start: Row, ms: seq<MediaType>) returns (row: Row)
    ensures row == MediaTypeCells(start, ms)
  {
    row := start;
    var k := 0;
    while k < |ms|
      invariant 0 <= k <= |ms|
      invariant row == MediaTypeCells(start, ms[..k])
    {
      assert ms[..k + 1][..k] == ms[..k];
      var col := MediaColumn(ms[k].mtype);
      if col in Keys(row) {
        row := Set(row, col, Flag(ms[k].enabled));
      }
      k := k + 1;
    }
    assert ms[..k] == ms;
  }

  /** The loop over the requested roles. */
  method FillPermissionCells(start: Row, u: User, tp: TargetPermissions) returns (row: Row)
    ensures row == PermissionCells(start, u, tp)
  {
    row := start;
    var t := 0;
    while t < |tp|
      invariant 0 <= t <= |tp|
      invariant row == PermissionCells(start, u, tp[..t])
    {
      assert tp[..t + 1][..t] == tp[..t];
      var role, wanted := tp[t].0, tp[t].1;
      match RoleOf(u, role) {
        case None =>
        case Some(rl) =>
          row := FillRolePermissionCells(row, role, wanted, rl.permissions);
      }
      t := t + 1;
    }
    assert tp[..t] == tp;
  }

  /** The loop over one role's permissions. */
  method FillRolePermissionCells(start: Row, role: string, wanted: seq<string>, ps: seq<Permission>) returns (row: Row)
    ensures row == PermissionListCells(start, role, wanted, ps)
  {
    row := start;
    var j := 0;
    while j < |ps|
      invariant 0 <= j <= |ps|
      invariant row == PermissionListCells(start, role, wanted, ps[..j])
    {
      assert ps[..j + 1][..j] == ps[..j];
      match RequestedColumn(role, wanted, ps[j]) {
        case None =>
        case Some(col) =>
          if col in Keys(row) {
            row := Set(row, col, Cell(ps[j].value));
          }
      }
      j := j + 1;
    }
    assert ps[..j] == ps;
  }

  // ---------------------------------------------------------------------
  // csv.DictWriter.writerow
  // ---------------------------------------------------------------------

  /** The keys of the row that are not columns, in row order. */
  function ExtraKeys(keys: seq<string>, fieldnames: seq<string>): (r: seq<string>)
    ensures forall k :: k in r <==> k in keys && k !in fieldnames
  {
    if keys == [] then []
    else
      var prev := ExtraKeys(keys[..|keys| - 1], fieldnames);
      var k := keys[|keys| - 1];
      assert keys == keys[..|keys| - 1] + [k];
      if k in fieldnames then prev else prev + [k]
  }

  /**
   * `DictWriter(f, fieldnames).writerow(row)` with the default
   * `extrasaction="raise"`: a key that is not a column raises ValueError;
   * otherwise one cell per column, "" for a column the row lacks.
   */
  function WriteRow(fieldnames: seq<string>, row: Row): (r: Result<seq<Value>, seq<string>>)
    ensures r.Ok? <==> forall k :: k in Keys(row) ==> k in fieldnames
    ensures r.Ok? ==> |r.value| == |fieldnames|
    ensures r.Ok? ==> forall i :: 0 <= i < |fieldnames| ==> r.value[i] == Get(row, fieldnames[i]).GetOr(Text(""))
    ensures r.Err? ==> r.error != [] && forall k :: k in r.error ==> k in Keys(row) && k !in fieldnames
  {
    var extra := ExtraKeys(Keys(row), fieldnames);
    if extra == [] then
      Ok(seq(|fieldnames|, i requires 0 <= i < |fieldnames| => Get(row, fieldnames[i]).GetOr(Text(""))))
    else
      assert extra[0] in extra;
      Err(extra)
  }

  /**
   * With media cells guarded, a row has exactly the columns as keys, so
   * `writerow` never raises (requires only that the general fields are
   * columns, as every caller's column list guarantees).
   */
  lemma ProjectedRowWritable(u: User, fieldnames: seq<string>, general: seq<string>, tp: TargetPermissions, includeMedia: bool)
    requires forall a :: a in general ==> a in fieldnames
    ensures Keys(ProjectedRow(u, fieldnames, general, tp, includeMedia)) == AppendNew([], fieldnames)
    ensures WriteRow(fieldnames, ProjectedRow(u, fieldnames, general, tp, includeMedia)).Ok?
  {
    var blankKeys := AppendNew([], fieldnames);
    AppendNewPresent(blankKeys, general);
  }

  // ---------------------------------------------------------------------
  // The record of one user, column by column
  // ---------------------------------------------------------------------

  /** Column `c` after the general-info loop: the attribute when requested, else "". */
  function BaseCell(u: User, c: string, general: seq<string>): Value {
    if c in general then GeneralCell(u, c) else Text("")
  }

  /** Column `c` after the media loop: the flag of the last media type with that column, if any. */
  function MediaCellOf(u: User, c: string, includeMedia: bool, below: Value): Value {
    if includeMedia && u.generalInfo.mediaTypes.Some? && LastMediaFlag(u.generalInfo.mediaTypes.value, c).Some?
    then Flag(LastMediaFlag(u.generalInfo.mediaTypes.value, c).value)
    else below
  }

  /**
   * Column `c` after the permission loops: the last requested role (in
   * configuration order) that the user has and that has a requested
   * permission feeding `c` decides the cell.
   */
  function PermissionCellOf(u: User, tp: TargetPermissions, c: string, below: Value): Value {
    if tp == [] then below
    else
      var prev := PermissionCellOf(u, tp[..|tp| - 1], c, below);
      var role := tp[|tp| - 1].0;
      var wanted := tp[|tp| - 1].1;
      var rl := RoleOf(u, role);
      if rl.Some? && LastPermissionCell(role, wanted, rl.value.permissions, c).Some?
      then LastPermissionCell(role, wanted, rl.value.permissions, c).value
      else prev
  }

  /** The cell a user's record holds in column `c`. */
  function ColumnCell(u: User, c: string, general: seq<string>, tp: TargetPermissions, includeMedia: bool): Value {
    PermissionCellOf(u, tp, c, MediaCellOf(u, c, includeMedia, BaseCell(u, c, general)))
  }

  /** The record of one user: one cell per column, in column order. */
  function RecordCells(u: User, fieldnames: seq<string>, general: seq<string>, tp: TargetPermissions, includeMedia: bool): seq<Value> {
    seq(|fieldnames|, i requires 0 <= i < |fieldnames| => ColumnCell(u, fieldnames[i], general, tp, includeMedia))
  }

  /** The permission loops keep the row's keys and set each existing cell as `PermissionCellOf` says. */
  lemma {:induction false} PermissionCellsGet(row: Row, u: User, tp: TargetPermissions, k: string, below: Value)
    requires Get(row, k) == Some(below)
    ensures Get(PermissionCells(row, u, tp), k) == Some(PermissionCellOf(u, tp, k, below))
    decreases |tp|
  {
    if tp != [] {
      var init := tp[..|tp| - 1];
      PermissionCellsGet(row, u, init, k, below);
      var prev := PermissionCells(row, u, init);
      var role := tp[|tp| - 1].0;
      match RoleOf(u, role)
      case None =>
      case Some(rl) =>
        assert k in Keys(prev);
    }
  }

  /** Every column of the projected row holds `ColumnCell`. */
  lemma ProjectedCell(u: User, fieldnames: seq<string>, general: seq<string>, tp: TargetPermissions, includeMedia: bool, c: string)
    requires c in fieldnames
    ensures Get(ProjectedRow(u, fieldnames, general, tp, includeMedia), c) == Some(ColumnCell(u, c, general, tp, includeMedia))
  {
    var blank := FromKeys(fieldnames, Text(""));
    var gen := GeneralCells(blank, u, general);
    assert Get(gen, c) == Some(BaseCell(u, c, general));
    var med := MediaCells(gen, u, includeMedia);
    assert Get(med, c) == Some(MediaCellOf(u, c, includeMedia, BaseCell(u, c, general)));
    PermissionCellsGet(med, u, tp, c, MediaCellOf(u, c, includeMedia, BaseCell(u, c, general)));
  }

  /**
   * What `writerow` emits for a user's dict-built row is the column-by-column
   * record: the last requested permission feeding the column, else the media
   * flag, else the general attribute, else "".
   */
  lemma RecordCellsWritten(u: User, fieldnames: seq<string>, general: seq<string>, tp: TargetPermissions, includeMedia: bool)
    requires forall a :: a in general ==> a in fieldnames
    ensures WriteRow(fieldnames, ProjectedRow(u, fieldnames, general, tp, includeMedia))
            == Ok(RecordCells(u, fieldnames, general, tp, includeMedia))
  {
    var row := ProjectedRow(u, fieldnames, general, tp, includeMedia);
    var cells := RecordCells(u, fieldnames, general, tp, includeMedia);
    ProjectedRowWritable(u, fieldnames, general, tp, includeMedia);
    forall i | 0 <= i < |fieldnames|
      ensures Get(row, fieldnames[i]) == Some(cells[i])
    {
      ProjectedCell(u, fieldnames, general, tp, includeMedia, fieldnames[i]);
    }
    WriteRowCells(fieldnames, row, cells);
  }

  /** A row whose keys are all columns is written as the cells stored under the columns. */
  lemma WriteRowCells(fieldnames: seq<string>, row: Row, cells: seq<Value>)
    requires forall k :: k in Keys(row) ==> k in fieldnames
    requires |cells| == |fieldnames|
    requires forall i :: 0 <= i < |fieldnames| ==> Get(row, fieldnames[i]) == Some(cells[i])
    ensures WriteRow(fieldnames, row) == Ok(cells)
  {
    var r := WriteRow(fieldnames, row);
    assert r.Ok?;
    assert forall i :: 0 <= i < |fieldnames| ==> r.value[i] == cells[i];
    assert r.value == cells;
  }

  /**
   * As written, a user with a media type that has no column (a type the
   * sample user lacked) makes `writerow` raise ValueError.
   */
  lemma AsWrittenMediaCellRaises(u: User, fieldnames: seq<string>, general: seq<string>, tp: TargetPermissions, m: MediaType)
    requires u.generalInfo.mediaTypes.Some? && m in u.generalInfo.mediaTypes.value
    requires MediaColumn(m.mtype) !in fieldnames
    ensures MediaColumn(m.mtype) in Keys(ProjectedRowAsWritten(u, fieldnames, general, tp, true))
    ensures WriteRow(fieldnames, ProjectedRowAsWritten(u, fieldnames, general, tp, true)).Err?
  {
    var ms := u.generalInfo.mediaTypes.value;
    var i :| 0 <= i < |ms| && ms[i] == m;
    assert MediaColumns(ms)[i] == MediaColumn(m.mtype);
  }

  /** When every media column already exists, the unguarded write is the guarded one. */
  lemma {:induction false} MediaTypeCellsAgree(row: Row, ms: seq<MediaType>)
    requires forall i :: 0 <= i < |ms| ==> MediaColumn(ms[i].mtype) in Keys(row)
    ensures MediaTypeCellsAsWritten(row, ms) == MediaTypeCells(row, ms)
    decreases |ms|
  {
    if ms != [] {
      MediaTypeCellsAgree(row, ms[..|ms| - 1]);
    }
  }

  /**
   * As written, `writerow` succeeds exactly when every media type of the
   * user has a column (or media is not exported); and whenever it succeeds
   * the row is the one the guarded projection builds.
   */
  lemma AsWrittenAgreesUnlessRaising(u: User, fieldnames: seq<string>, general: seq<string>, tp: TargetPermissions, includeMedia: bool)
    requires forall a :: a in general ==> a in fieldnames
    ensures var ok := WriteRow(fieldnames, ProjectedRowAsWritten(u, fieldnames, general, tp, includeMedia)).Ok?;
            ok <==> (includeMedia && u.generalInfo.mediaTypes.Some? ==>
                       forall m :: m in u.generalInfo.mediaTypes.value ==> MediaColumn(m.mtype) in fieldnames)
    ensures WriteRow(fieldnames, ProjectedRowAsWritten(u, fieldnames, general, tp, includeMedia)).Ok? ==>
              ProjectedRowAsWritten(u, fieldnames, general, tp, includeMedia) == ProjectedRow(u, fieldnames, general, tp, includeMedia)
  {
    var blank := FromKeys(fieldnames, Text(""));
    var gen := GeneralCells(blank, u, general);
    assert forall k :: k in Keys(gen) <==> k in fieldnames;
    if includeMedia && u.generalInfo.mediaTypes.Some? {
      var ms := u.generalInfo.mediaTypes.value;
      var written := ProjectedRowAsWritten(u, fieldnames, general, tp, includeMedia);
      assert Keys(written) == AppendNew(Keys(gen), MediaColumns(ms));
      if forall m :: m in ms ==> MediaColumn(m.mtype) in fieldnames {
        assert forall i :: 0 <= i < |ms| ==> MediaColumn(ms[i].mtype) in Keys(gen) by {
          forall i | 0 <= i < |ms|
            ensures MediaColumn(ms[i].mtype) in Keys(gen)
          {
            assert ms[i] in ms;
          }
        }
        MediaTypeCellsAgree(gen, ms);
        ProjectedRowWritable(u, fieldnames, general, tp, includeMedia);
      } else {
        var m :| m in ms && MediaColumn(m.mtype) !in fieldnames;
        AsWrittenMediaCellRaises(u, fieldnames, general, tp, m);
      }
    } else {
      ProjectedRowWritable(u, fieldnames, general, tp, includeMedia);
    }
  }

  /**
   * The concrete case: the sample user has media type VOICE, a later user
   * has CHAT; the later user's row cannot be written.
   */
  lemma AsWrittenLaterUserRaises()
    ensures var info := GeneralInfo("a", "a@x.com", true, None, [], Some([MediaType("VOICE", true)]));
            var sample := User(info, [], None);
            var later := User(info.(mediaTypes := Some([MediaType("CHAT", true)])), [], None);
            var fieldnames := Fieldnames(sample, ["userName"], [], true);
            WriteRow(fieldnames, ProjectedRowAsWritten(later, fieldnames, ["userName"], [], true)).Err?
  {
    var info := GeneralInfo("a", "a@x.com", true, None, [], Some([MediaType("VOICE", true)]));
    var sample := User(info, [], None);
    var later := User(info.(mediaTypes := Some([MediaType("CHAT", true)])), [], None);
    var fieldnames := Fieldnames(sample, ["userName"], [], true);
    var media := SampleMediaColumns(sample, true);
    assert media == [MediaColumn("VOICE")];
    assert PermissionColumns([]) == [];
    var chat := MediaColumn("CHAT");
    assert chat[14] == 'C' && MediaColumn("VOICE")[14] == 'V';
    forall i | 0 <= i < |fieldnames|
      ensures fieldnames[i] != chat
    {
      if i == 0 {
        assert fieldnames[..1] == ["userName"];
        assert |chat| != |"userName"|;
      }
    }
    AsWrittenMediaCellRaises(later, fieldnames, ["userName"], [], MediaType("CHAT", true));
  }
}
