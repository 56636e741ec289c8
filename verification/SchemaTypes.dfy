/** The database metadata every consumer reasons about. */
module SchemaTypes {
  import opened Sequences

  datatype TableKind = BaseTable | View | MaterializedView | PartitionedTable

  datatype Column = Column(
    name: string, position: int, dataType: string, isNullable: bool,
    defaultValue: Option<string>, comment: Option<string>, isPrimaryKey: bool)

  datatype ForeignKey = ForeignKey(
    name: string, columns: seq<string>, referencedSchema: string, referencedTable: string, referencedColumns: seq<string>)

  datatype UniqueConstraint = UniqueConstraint(name: string, columns: seq<string>)

  datatype Table = Table(
    schema: string, name: string, kind: TableKind, comment: Option<string>, columns: seq<Column>,
    primaryKey: seq<string>, foreignKeys: seq<ForeignKey>, uniqueConstraints: seq<UniqueConstraint>)

  datatype DatabaseSchema = DatabaseSchema(
    database: string, schemas: seq<string>, tables: seq<Table>, introspectedAt: string)
}
